/** The repository's recorded sizes and frame prefixes, as a check of the serialization written here. */
module Vectors {
  import opened Basics
  import opened FrameCodec
  import opened Protobuf
  import opened Envelope
  import Responses
  import Utf8

  function Utf8Size(s: string): nat {
    if s == "" then 0
    else
      Utf8Size(s[1..]) +
      if s[0] < '\U{80}' then 1 else if s[0] < '\U{800}' then 2 else if s[0] < '\U{10000}' then 3 else 4
  }

  lemma {:induction false} Utf8SizeIsEncoded(s: string)
    ensures |Utf8.Encode(s)| == Utf8Size(s)
  {
    if s != "" {
      Utf8SizeIsEncoded(s[1..]);
    }
  }

  lemma FirstField(f: Field, rest: seq<Field>)
    ensures EncodeFields([f] + rest) == EncodeField(f) + EncodeFields(rest)
  {
    assert ([f] + rest)[1..] == rest;
  }

  lemma FirstFieldStays(f: Field, rest: seq<Field>, b: seq<Field>)
    requires EncodeFields(rest + b) == EncodeFields(rest) + EncodeFields(b)
    ensures EncodeFields([f] + rest + b) == EncodeFields([f] + rest) + EncodeFields(b)
  {
    FirstField(f, rest + b);
    FirstField(f, rest);
    ConcatAssociates([f], rest, b);
    ConcatAssociates(EncodeField(f), EncodeFields(rest), EncodeFields(b));
  }

  lemma {:induction false} EncodeFieldsConcat(a: seq<Field>, b: seq<Field>)
    ensures EncodeFields(a + b) == EncodeFields(a) + EncodeFields(b)
  {
    if a == [] {
      assert a + b == b;
    } else {
      EncodeFieldsConcat(a[1..], b);
      FirstFieldStays(a[0], a[1..], b);
      assert a == [a[0]] + a[1..];
    }
  }

  /** The bytes of one length-delimited field: tag, length and data, or nothing at the default. */
  function RecordSize(len: nat): nat {
    if len == 0 then 0 else 2 + len
  }

  lemma ShortRecord(number: nat, data: seq<byte>)
    requires 1 <= number <= 15 && |data| < 128
    ensures EncodeFields(LenRecord(number, data)) ==
            if data == [] then [] else [8 * number + 2, |data|] + data
  {
    if data != [] {
      var fs := [LenField(number, data)];
      assert fs[1..] == [];
      assert EncodeField(fs[0]) == Varint(8 * number + 2) + (Varint(|data|) + data);
      assert EncodeFields(fs) == EncodeField(fs[0]) + [];
    }
  }

  function TextRecord(number: nat, text: string): seq<byte> {
    EncodeFields(LenRecord(number, Utf8.Encode(text)))
  }

  function TimeRecord(t: int): seq<byte>
    requires IsInt64(t)
  {
    EncodeFields(if t == 0 then [] else [VarintField(8, Int64ToWire(t))])
  }

  /** A message is its fields' records one after the other. */
  lemma RecordsInOrder(p: ProtoEnvelope)
    requires IsInt64(p.createdAtUnixMs)
    ensures EncodeFields(Records(p)) ==
            TextRecord(1, p.transactionId) + TextRecord(2, p.senderId) + TextRecord(3, p.recipientId) +
            TextRecord(4, p.tlpMarking) + EncodeFields(LenRecord(5, p.stixBundleCompressed)) +
            EncodeFields(LenRecord(6, p.signature)) + TextRecord(7, p.signerCertFingerprint) +
            TimeRecord(p.createdAtUnixMs)
  {
    var r1, r2 := LenRecord(1, Utf8.Encode(p.transactionId)), LenRecord(2, Utf8.Encode(p.senderId));
    var r3, r4 := LenRecord(3, Utf8.Encode(p.recipientId)), LenRecord(4, Utf8.Encode(p.tlpMarking));
    var r5, r6 := LenRecord(5, p.stixBundleCompressed), LenRecord(6, p.signature);
    var r7 := LenRecord(7, Utf8.Encode(p.signerCertFingerprint));
    var r8 := if p.createdAtUnixMs == 0 then [] else [VarintField(8, Int64ToWire(p.createdAtUnixMs))];
    EncodeFieldsConcat(r1, r2);
    EncodeFieldsConcat(r1 + r2, r3);
    EncodeFieldsConcat(r1 + r2 + r3, r4);
    EncodeFieldsConcat(r1 + r2 + r3 + r4, r5);
    EncodeFieldsConcat(r1 + r2 + r3 + r4 + r5, r6);
    EncodeFieldsConcat(r1 + r2 + r3 + r4 + r5 + r6, r7);
    EncodeFieldsConcat(r1 + r2 + r3 + r4 + r5 + r6 + r7, r8);
  }

  lemma TextSize(number: nat, text: string)
    requires 1 <= number <= 15 && Utf8Size(text) < 128
    ensures |TextRecord(number, text)| == RecordSize(Utf8Size(text))
  {
    Utf8SizeIsEncoded(text);
    ShortRecord(number, Utf8.Encode(text));
  }

  const RECORDED_TIME := 1700000000000

  lemma TimeSize()
    ensures |TimeRecord(RECORDED_TIME)| == 7
  {
    var fs := [VarintField(8, RECORDED_TIME)];
    assert fs[1..] == [];
    assert |Varint(64)| == 1;
    assert |Varint(RECORDED_TIME)| == 6;
    assert EncodeFields(fs) == EncodeField(fs[0]) + [];
  }

  /** The size of a message whose texts and data are short, at the recorded time. */
  lemma MessageSize(p: ProtoEnvelope)
    requires p.createdAtUnixMs == RECORDED_TIME
    requires Utf8Size(p.transactionId) < 128 && Utf8Size(p.senderId) < 128 && Utf8Size(p.recipientId) < 128
    requires Utf8Size(p.tlpMarking) < 128 && Utf8Size(p.signerCertFingerprint) < 128
    requires |p.stixBundleCompressed| < 128 && |p.signature| < 128
    ensures |EncodeFields(Records(p))| ==
            RecordSize(Utf8Size(p.transactionId)) + RecordSize(Utf8Size(p.senderId)) +
            RecordSize(Utf8Size(p.recipientId)) + RecordSize(Utf8Size(p.tlpMarking)) +
            RecordSize(|p.stixBundleCompressed|) + RecordSize(|p.signature|) +
            RecordSize(Utf8Size(p.signerCertFingerprint)) + 7
  {
    RecordsInOrder(p);
    TextSize(1, p.transactionId);
    TextSize(2, p.senderId);
    TextSize(3, p.recipientId);
    TextSize(4, p.tlpMarking);
    ShortRecord(5, p.stixBundleCompressed);
    ShortRecord(6, p.signature);
    TextSize(7, p.signerCertFingerprint);
    TimeSize();
  }

  /** One length-delimited field as it stands on the wire; an empty one is omitted. */
  function Delimited(tag: byte, data: seq<byte>): seq<byte> {
    if data == [] then [] else [tag] + (Varint(|data|) + data)
  }

  lemma LenRecordIsDelimited(number: nat, data: seq<byte>)
    requires 1 <= number <= 15
    ensures EncodeFields(LenRecord(number, data)) == Delimited(8 * number + 2, data)
  {
    if data != [] {
      var fs := [LenField(number, data)];
      assert fs[1..] == [];
      RecordLayout(number, 0, data);
      assert Varint(8 * number + 2) == [8 * number + 2];
      assert EncodeFields(fs) == EncodeField(fs[0]) + [];
    }
  }

  lemma TimeIsVarint(t: int)
    requires IsInt64(t)
    ensures TimeRecord(t) ==
            if t == 0 then [] else [0x40] + Varint(if t > 0 then t else t + 0x1_0000_0000_0000_0000)
  {
    if t != 0 {
      var fs := [VarintField(8, Int64ToWire(t))];
      assert fs[1..] == [];
      RecordLayout(8, Int64ToWire(t), []);
      assert Varint(64) == [0x40];
      assert EncodeFields(fs) == EncodeField(fs[0]) + [];
    }
  }

  /**
   * The serialized envelope, byte by byte: each field of the envelope under its own tag, in number order, empty ones
   * omitted, and a negative timestamp as its two's complement.
   */
  lemma SerializedForm(e: TransactionEnvelope)
    requires ToBytes(e).Ok?
    ensures ToBytes(e).value ==
            Delimited(0x0A, Utf8.Encode(e.transactionId)) + Delimited(0x12, Utf8.Encode(e.senderId)) +
            Delimited(0x1A, Utf8.Encode(e.recipientId)) + Delimited(0x22, Utf8.Encode(TlpText(e.tlpMarking))) +
            Delimited(0x2A, e.stixBundleCompressed) + Delimited(0x32, e.signature) +
            Delimited(0x3A, Utf8.Encode(e.signerCertFingerprint)) +
            if e.createdAtUnixMs == 0 then []
            else [0x40] + Varint(if e.createdAtUnixMs > 0 then e.createdAtUnixMs
                                 else e.createdAtUnixMs + 0x1_0000_0000_0000_0000)
  {
    RecordsInOrder(ToProto(e).value);
    LenRecordIsDelimited(1, Utf8.Encode(e.transactionId));
    LenRecordIsDelimited(2, Utf8.Encode(e.senderId));
    LenRecordIsDelimited(3, Utf8.Encode(e.recipientId));
    LenRecordIsDelimited(4, Utf8.Encode(TlpText(e.tlpMarking)));
    LenRecordIsDelimited(5, e.stixBundleCompressed);
    LenRecordIsDelimited(6, e.signature);
    LenRecordIsDelimited(7, Utf8.Encode(e.signerCertFingerprint));
    TimeIsVarint(e.createdAtUnixMs);
  }

  predicate IsTx(id: string) {
    |id| >= 3 && id[..3] == "tx-"
  }

  lemma LaterRecords<T>(a: seq<T>, b: seq<T>, c: seq<T>, d: seq<T>, e: seq<T>, f: seq<T>, g: seq<T>, h: seq<T>)
    returns (rest: seq<T>)
    ensures a + b + c + d + e + f + g + h == a + rest
  {
    rest := b + c + d + e + f + g + h;
  }

  lemma FirstRecord(p: ProtoEnvelope) returns (rest: seq<byte>)
    requires IsInt64(p.createdAtUnixMs)
    ensures EncodeFields(Records(p)) == TextRecord(1, p.transactionId) + rest
  {
    RecordsInOrder(p);
    rest := LaterRecords(TextRecord(1, p.transactionId), TextRecord(2, p.senderId), TextRecord(3, p.recipientId),
                         TextRecord(4, p.tlpMarking), EncodeFields(LenRecord(5, p.stixBundleCompressed)),
                         EncodeFields(LenRecord(6, p.signature)), TextRecord(7, p.signerCertFingerprint),
                         TimeRecord(p.createdAtUnixMs));
  }

  lemma StartsWithTx(text: string)
    requires |text| >= 3 && text[..3] == "tx-"
    ensures |Utf8.Encode(text)| >= 3 && Utf8.Encode(text)[..3] == [0x74, 0x78, 0x2D]
  {
    assert text[0] == 't' && text[1] == 'x' && text[2] == '-';
    var r1, r2, r3 := text[1..], text[2..], text[3..];
    assert r1[1..] == r2 && r2[1..] == r3;
    assert Utf8.Encode(r2) == [0x2D] + Utf8.Encode(r3);
    assert Utf8.Encode(r1) == [0x78] + Utf8.Encode(r2);
    assert Utf8.Encode(text) == [0x74] + Utf8.Encode(r1);
  }

  lemma MessageStart(p: ProtoEnvelope)
    requires IsInt64(p.createdAtUnixMs) && Utf8Size(p.transactionId) < 128 && IsTx(p.transactionId)
    ensures var data := EncodeFields(Records(p));
            |data| >= 5 && data[..5] == [0x0A, Utf8Size(p.transactionId), 0x74, 0x78, 0x2D]
  {
    var id := Utf8.Encode(p.transactionId);
    Utf8SizeIsEncoded(p.transactionId);
    StartsWithTx(p.transactionId);
    ShortRecord(1, id);
    var rest := FirstRecord(p);
    var first := TextRecord(1, p.transactionId);
    assert first == [0x0A, |id|] + id;
    assert (first + rest)[..5] == [0x0A, |id|] + id[..3];
  }

  /** A short SIGNED_BUNDLE frame starts with its type, its length in the last header byte, and its payload. */
  lemma FrameStart(data: seq<byte>)
    requires 5 <= |data| < 256
    ensures var frame := EncodeFrame(Responses.CAP, SignedBundle, data);
            frame.Ok? && |frame.value| == 5 + |data| && frame.value[..10] == [0x01, 0, 0, 0, |data|] + data[..5]
  {
  }

  /** An envelope that agrees with the recorded "normal" input but for the fingerprint's digits. */
  predicate IsNormal(e: TransactionEnvelope) {
    && e.transactionId == "tx-normal" && e.senderId == "AgencyA" && e.recipientId == "AgencyB" && e.tlpMarking == Green
    && |e.stixBundleCompressed| == 11 && |e.signature| == 4 && Utf8Size(e.signerCertFingerprint) == 64
    && e.createdAtUnixMs == RECORDED_TIME
  }

  /** The recorded "unicode" input. */
  predicate IsUnicode(e: TransactionEnvelope) {
    && e.transactionId == "tx-unicode" && e.senderId == "\U{DC}n\U{EE}c\U{F8}d\U{E9}"
    && e.recipientId == "R\U{E9}cipi\U{E9}nt" && e.tlpMarking == Amber
    && |e.stixBundleCompressed| == 4 && |e.signature| == 4 && Utf8Size(e.signerCertFingerprint) == 3
    && e.createdAtUnixMs == RECORDED_TIME
  }

  lemma NormalTexts()
    ensures Utf8Size("tx-normal") == 9 && Utf8Size("AgencyA") == 7 && Utf8Size("AgencyB") == 7
  {
  }

  lemma UnicodeId()
    ensures Utf8Size("tx-unicode") == 10
  {
  }

  lemma UnicodeSender()
    ensures Utf8Size("\U{DC}n\U{EE}c\U{F8}d\U{E9}") == 11
  {
  }

  lemma UnicodeRecipient()
    ensures Utf8Size("R\U{E9}cipi\U{E9}nt") == 11
  {
  }

  lemma Markings()
    ensures Utf8Size("tlp:green") == 9 && Utf8Size("tlp:amber") == 9
  {
  }

  /** The sizes of an envelope's texts and data, in field order. */
  predicate HasSizes(e: TransactionEnvelope, id: nat, party: nat, bundle: nat, fingerprint: nat) {
    && Utf8Size(e.transactionId) == id && Utf8Size(e.senderId) == Utf8Size(e.recipientId) == party
    && Utf8Size(TlpText(e.tlpMarking)) == 9
    && |e.stixBundleCompressed| == bundle && |e.signature| == 4 && Utf8Size(e.signerCertFingerprint) == fingerprint
    && e.createdAtUnixMs == RECORDED_TIME
  }

  lemma InputSizes(e: TransactionEnvelope)
    ensures IsNormal(e) ==> HasSizes(e, 9, 7, 11, 64)
    ensures IsUnicode(e) ==> HasSizes(e, 10, 11, 4, 3)
  {
    Markings();
    if IsNormal(e) {
      NormalTexts();
    } else if IsUnicode(e) {
      UnicodeId();
      UnicodeSender();
      UnicodeRecipient();
    }
  }

  lemma EnvelopeSize(e: TransactionEnvelope, id: nat, party: nat, bundle: nat, fingerprint: nat)
    requires HasSizes(e, id, party, bundle, fingerprint)
    requires 0 < id < 128 && 0 < party < 128 && 0 < bundle < 128 && 0 < fingerprint < 128
    ensures |EncodeFields(Records(ToProto(e).value))| == id + party + party + bundle + fingerprint + 34
  {
    MessageSize(ToProto(e).value);
  }

  ghost predicate HasFrame(data: seq<byte>, size: nat, idSize: nat) {
    && |data| == size >= 5
    && var frame := EncodeFrame(Responses.CAP, SignedBundle, data);
    && frame.Ok? && |frame.value| == 5 + size
    && frame.value[..10] == [0x01, 0x00, 0x00, 0x00, size, 0x0A, idSize, 0x74, 0x78, 0x2D]
  }

  /** What was recorded of an envelope: the size of its message and the start of its frame. */
  ghost predicate Recorded(e: TransactionEnvelope, size: nat, idSize: nat) {
    ToBytes(e).Ok? && HasFrame(ToBytes(e).value, size, idSize)
  }

  lemma StartOfFrame(data: seq<byte>, idSize: nat)
    requires 5 <= |data| < 256 && data[..5] == [0x0A, idSize, 0x74, 0x78, 0x2D]
    ensures HasFrame(data, |data|, idSize)
  {
    FrameStart(data);
  }

  lemma SizesAreRecorded(e: TransactionEnvelope, size: nat, idSize: nat)
    requires ToProto(e).Ok? && |EncodeFields(Records(ToProto(e).value))| == size < 256
    requires IsTx(e.transactionId) && Utf8Size(e.transactionId) == idSize < 128 && size >= 5
    ensures Recorded(e, size, idSize)
  {
    MessageStart(ToProto(e).value);
    StartOfFrame(EncodeFields(Records(ToProto(e).value)), idSize);
  }

  /** The sizes and frame prefixes of the two recorded inputs: 132 bytes and 0x84, 73 bytes and 0x49. */
  lemma RecordedVectors(e: TransactionEnvelope)
    ensures IsNormal(e) ==> Recorded(e, 0x84, 0x09)
    ensures IsUnicode(e) ==> Recorded(e, 0x49, 0x0A)
  {
    InputSizes(e);
    if IsNormal(e) {
      EnvelopeSize(e, 9, 7, 11, 64);
      SizesAreRecorded(e, 0x84, 0x09);
    } else if IsUnicode(e) {
      EnvelopeSize(e, 10, 11, 4, 3);
      SizesAreRecorded(e, 0x49, 0x0A);
    }
  }
}
