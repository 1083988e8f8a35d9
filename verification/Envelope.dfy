/** The transaction envelope and its proto3 serialization. */
module Envelope {
  import opened Basics
  import opened Protobuf
  import Utf8

  datatype Tlp = Green | Amber | AmberStrict

  function TlpText(t: Tlp): string {
    match t
    case Green => "tlp:green"
    case Amber => "tlp:amber"
    case AmberStrict => "tlp:amber+strict"
  }

  function TlpOf(text: string): Option<Tlp> {
    if text == "tlp:green" then Some(Green)
    else if text == "tlp:amber" then Some(Amber)
    else if text == "tlp:amber+strict" then Some(AmberStrict)
    else None
  }

  datatype TransactionEnvelope = TransactionEnvelope(
    transactionId: string,
    senderId: string,
    recipientId: string,
    tlpMarking: Tlp,
    stixBundleCompressed: seq<byte>,
    signature: seq<byte>,
    signerCertFingerprint: string,
    createdAtUnixMs: int)

  /** The generated message class: every field present, absent ones at their default. */
  datatype ProtoEnvelope = ProtoEnvelope(
    transactionId: string,
    senderId: string,
    recipientId: string,
    tlpMarking: string,
    stixBundleCompressed: seq<byte>,
    signature: seq<byte>,
    signerCertFingerprint: string,
    createdAtUnixMs: int)

  const EMPTY := ProtoEnvelope("", "", "", "", [], [], "", 0)

  /** `InvalidField` covers a marking outside the enumeration and a timestamp outside int64. */
  datatype EnvelopeError = ParseFailed | InvalidField | TooLarge

  /** Protocol Buffers refuses to serialize a message of 2 GiB or more. */
  const MAX_MESSAGE_SIZE := 0x7FFF_FFFF

  // ----- Serialization -----

  function LenRecord(number: nat, data: seq<byte>): seq<Field> {
    if data == [] then [] else [LenField(number, data)]
  }

  /** proto3: fields in number order, a field at its default value is omitted. */
  function Records(p: ProtoEnvelope): seq<Field>
    requires IsInt64(p.createdAtUnixMs)
  {
    LenRecord(1, Utf8.Encode(p.transactionId)) + LenRecord(2, Utf8.Encode(p.senderId)) +
    LenRecord(3, Utf8.Encode(p.recipientId)) + LenRecord(4, Utf8.Encode(p.tlpMarking)) +
    LenRecord(5, p.stixBundleCompressed) + LenRecord(6, p.signature) +
    LenRecord(7, Utf8.Encode(p.signerCertFingerprint)) +
    (if p.createdAtUnixMs == 0 then [] else [VarintField(8, Int64ToWire(p.createdAtUnixMs))])
  }

  function ToProto(e: TransactionEnvelope): Result<ProtoEnvelope, EnvelopeError> {
    if !IsInt64(e.createdAtUnixMs) then Err(InvalidField)
    else Ok(ProtoEnvelope(e.transactionId, e.senderId, e.recipientId, TlpText(e.tlpMarking),
                          e.stixBundleCompressed, e.signature, e.signerCertFingerprint, e.createdAtUnixMs))
  }

  function ToBytes(e: TransactionEnvelope): Result<seq<byte>, EnvelopeError> {
    match ToProto(e)
    case Err(error) => Err(error)
    case Ok(p) =>
      var data := EncodeFields(Records(p));
      if |data| > MAX_MESSAGE_SIZE then Err(TooLarge) else Ok(data)
  }

  /** The texts of the markings, and that there are no others. */
  lemma MarkingTexts(text: string)
    ensures TlpText(Green) == "tlp:green" && TlpText(Amber) == "tlp:amber" && TlpText(AmberStrict) == "tlp:amber+strict"
    ensures TlpOf(text) == Some(Green) <==> text == "tlp:green"
    ensures TlpOf(text) == Some(Amber) <==> text == "tlp:amber"
    ensures TlpOf(text) == Some(AmberStrict) <==> text == "tlp:amber+strict"
  {
  }

  /** When serializing fails: the timestamp is no int64, or the message has 2 GiB or more. */
  lemma SerializingFails(e: TransactionEnvelope)
    ensures ToBytes(e) == Err(InvalidField) <==>
            !(-0x8000_0000_0000_0000 <= e.createdAtUnixMs < 0x8000_0000_0000_0000)
    ensures ToBytes(e).Ok? ==> |ToBytes(e).value| < 0x8000_0000
    ensures ToProto(e).Ok? && |EncodeFields(Records(ToProto(e).value))| >= 0x8000_0000 ==> ToBytes(e) == Err(TooLarge)
  {
  }

  // ----- Parsing -----

  /** One record merged into the message. The last record of a field wins; unknown records are skipped. */
  function Merge(p: ProtoEnvelope, f: Field): Option<ProtoEnvelope> {
    if f.LenField? && f.number in {1, 2, 3, 4, 7} then
      var text := Utf8.Decode(f.data);
      if text.None? then None
      else if f.number == 1 then Some(p.(transactionId := text.value))
      else if f.number == 2 then Some(p.(senderId := text.value))
      else if f.number == 3 then Some(p.(recipientId := text.value))
      else if f.number == 4 then Some(p.(tlpMarking := text.value))
      else Some(p.(signerCertFingerprint := text.value))
    else if f.LenField? && f.number == 5 then Some(p.(stixBundleCompressed := f.data))
    else if f.LenField? && f.number == 6 then Some(p.(signature := f.data))
    else if f.VarintField? && f.number == 8 && f.value < U64_LIMIT then
      Some(p.(createdAtUnixMs := Int64FromWire(f.value)))
    else Some(p)
  }

  function MergeAll(p: ProtoEnvelope, fs: seq<Field>): Option<ProtoEnvelope>
    decreases fs
  {
    if fs == [] then Some(p)
    else
      var q := Merge(p, fs[0]);
      if q.None? then None else MergeAll(q.value, fs[1..])
  }

  function ParseProto(data: seq<byte>): Option<ProtoEnvelope> {
    var fs := ReadFields(data);
    if fs.None? then None else MergeAll(EMPTY, fs.value)
  }

  function FromProto(p: ProtoEnvelope): Result<TransactionEnvelope, EnvelopeError> {
    var tlp := if p.tlpMarking == "" then Some(Green) else TlpOf(p.tlpMarking);
    if tlp.None? then Err(InvalidField)
    else Ok(TransactionEnvelope(p.transactionId, p.senderId, p.recipientId, tlp.value,
                                p.stixBundleCompressed, p.signature, p.signerCertFingerprint, p.createdAtUnixMs))
  }

  function FromBytes(data: seq<byte>): Result<TransactionEnvelope, EnvelopeError> {
    var p := ParseProto(data);
    if p.None? then Err(ParseFailed) else FromProto(p.value)
  }

  /** The message with one field replaced. */
  function WithText(p: ProtoEnvelope, number: nat, text: string): ProtoEnvelope {
    ProtoEnvelope(
      if number == 1 then text else p.transactionId,
      if number == 2 then text else p.senderId,
      if number == 3 then text else p.recipientId,
      if number == 4 then text else p.tlpMarking,
      p.stixBundleCompressed, p.signature,
      if number == 7 then text else p.signerCertFingerprint,
      p.createdAtUnixMs)
  }

  /**
   * What a record does to the message, field by field: a text field takes its decoded text and refuses bytes that
   * are not UTF-8; fields 5 and 6 take bytes; field 8 takes a two's complement number; any other record is skipped.
   */
  lemma RecordMeaning(p: ProtoEnvelope, number: nat, data: seq<byte>, value: nat)
    ensures number in {1, 2, 3, 4, 7} && Utf8.Decode(data).None? ==> Merge(p, LenField(number, data)) == None
    ensures number in {1, 2, 3, 4, 7} && Utf8.Decode(data).Some? ==>
              Merge(p, LenField(number, data)) == Some(WithText(p, number, Utf8.Decode(data).value))
    ensures Merge(p, LenField(5, data)) ==
            Some(ProtoEnvelope(p.transactionId, p.senderId, p.recipientId, p.tlpMarking, data, p.signature,
                               p.signerCertFingerprint, p.createdAtUnixMs))
    ensures Merge(p, LenField(6, data)) ==
            Some(ProtoEnvelope(p.transactionId, p.senderId, p.recipientId, p.tlpMarking, p.stixBundleCompressed, data,
                               p.signerCertFingerprint, p.createdAtUnixMs))
    ensures value < 0x8000_0000_0000_0000 ==> Merge(p, VarintField(8, value)) == Some(p.(createdAtUnixMs := value))
    ensures 0x8000_0000_0000_0000 <= value < 0x1_0000_0000_0000_0000 ==>
              Merge(p, VarintField(8, value)) == Some(p.(createdAtUnixMs := value - 0x1_0000_0000_0000_0000))
    ensures number !in {1, 2, 3, 4, 5, 6, 7} ==> Merge(p, LenField(number, data)) == Some(p)
    ensures number != 8 ==> Merge(p, VarintField(number, value)) == Some(p)
    ensures Merge(p, Fixed64Field(number, data)) == Some(p) && Merge(p, Fixed32Field(number, data)) == Some(p)
  {
  }

  /** `from_proto`: the fields are taken over one by one; no marking means GREEN, an unknown one is an error. */
  lemma FromProtoFields(p: ProtoEnvelope)
    ensures p.tlpMarking !in {"", "tlp:green", "tlp:amber", "tlp:amber+strict"} ==> FromProto(p) == Err(InvalidField)
    ensures p.tlpMarking in {"", "tlp:green", "tlp:amber", "tlp:amber+strict"} ==>
              FromProto(p).Ok? &&
              var e := FromProto(p).value;
              && e.transactionId == p.transactionId && e.senderId == p.senderId && e.recipientId == p.recipientId
              && e.stixBundleCompressed == p.stixBundleCompressed && e.signature == p.signature
              && e.signerCertFingerprint == p.signerCertFingerprint && e.createdAtUnixMs == p.createdAtUnixMs
              && (p.tlpMarking in {"", "tlp:green"} ==> e.tlpMarking == Green)
              && (p.tlpMarking == "tlp:amber" ==> e.tlpMarking == Amber)
              && (p.tlpMarking == "tlp:amber+strict" ==> e.tlpMarking == AmberStrict)
  {
    MarkingTexts(p.tlpMarking);
  }

  // ----- Round trip -----

  lemma {:induction false} MergeAppend(p: ProtoEnvelope, a: seq<Field>, b: seq<Field>)
    requires MergeAll(p, a).Some?
    ensures MergeAll(p, a + b) == MergeAll(MergeAll(p, a).value, b)
    decreases a
  {
    if a == [] {
      assert a + b == b;
    } else {
      assert (a + b)[1..] == a[1..] + b;
      MergeAppend(Merge(p, a[0]).value, a[1..], b);
    }
  }

  lemma MergeOptional(p: ProtoEnvelope, number: nat, data: seq<byte>)
    ensures MergeAll(p, LenRecord(number, data)) ==
            if data == [] then Some(p) else Merge(p, LenField(number, data))
  {
    if data != [] {
      var fs := [LenField(number, data)];
      assert fs[1..] == [];
      assert MergeAll(p, fs) == if Merge(p, fs[0]).None? then None else MergeAll(Merge(p, fs[0]).value, []);
    }
  }

  /** What the records up to and including field `k` set. */
  lemma MergeText(p: ProtoEnvelope, prefix: seq<Field>, q: ProtoEnvelope, number: nat, text: string)
    requires MergeAll(p, prefix) == Some(q)
    requires number in {1, 2, 3, 4, 7}
    ensures MergeAll(p, prefix + LenRecord(number, Utf8.Encode(text))) ==
            if text == "" then Some(q) else
              match number
              case 1 => Some(q.(transactionId := text))
              case 2 => Some(q.(senderId := text))
              case 3 => Some(q.(recipientId := text))
              case 4 => Some(q.(tlpMarking := text))
              case _ => Some(q.(signerCertFingerprint := text))
  {
    MergeAppend(p, prefix, LenRecord(number, Utf8.Encode(text)));
    MergeOptional(q, number, Utf8.Encode(text));
    Utf8.EncodeEmpty(text);
    Utf8.RoundTrip(text);
  }

  lemma MergeData(p: ProtoEnvelope, prefix: seq<Field>, q: ProtoEnvelope, number: nat, data: seq<byte>)
    requires MergeAll(p, prefix) == Some(q)
    requires number in {5, 6}
    ensures MergeAll(p, prefix + LenRecord(number, data)) ==
            if data == [] then Some(q)
            else if number == 5 then Some(q.(stixBundleCompressed := data))
            else Some(q.(signature := data))
  {
    MergeAppend(p, prefix, LenRecord(number, data));
    MergeOptional(q, number, data);
  }

  lemma MergeTimestamp(prefix: seq<Field>, q: ProtoEnvelope, p: ProtoEnvelope)
    requires IsInt64(p.createdAtUnixMs)
    requires MergeAll(EMPTY, prefix) == Some(q) && q == p.(createdAtUnixMs := 0)
    ensures var stamp := if p.createdAtUnixMs == 0 then [] else [VarintField(8, Int64ToWire(p.createdAtUnixMs))];
            MergeAll(EMPTY, prefix + stamp) == Some(p)
  {
    if p.createdAtUnixMs == 0 {
      assert prefix + [] == prefix;
    } else {
      var fs := [VarintField(8, Int64ToWire(p.createdAtUnixMs))];
      MergeAppend(EMPTY, prefix, fs);
      assert fs[1..] == [];
      assert MergeAll(p, []) == Some(p);
    }
  }

  /** Of several records of a field the last one counts. */
  lemma LastRecordWins(p: ProtoEnvelope, fs: seq<Field>, f: Field)
    requires MergeAll(p, fs).Some?
    ensures MergeAll(p, fs + [f]) == Merge(MergeAll(p, fs).value, f)
  {
    MergeAppend(p, fs, [f]);
    var q := Merge(MergeAll(p, fs).value, f);
    assert [f][1..] == [];
    assert q.Some? ==> MergeAll(q.value, []) == q;
  }

  /** Replaying the records of a message onto an empty one rebuilds the message. */
  lemma MergeRecords(p: ProtoEnvelope)
    requires IsInt64(p.createdAtUnixMs)
    ensures MergeAll(EMPTY, Records(p)) == Some(p)
  {
    var r0: seq<Field> := [];
    var q0 := EMPTY;
    var r1 := r0 + LenRecord(1, Utf8.Encode(p.transactionId));
    MergeText(EMPTY, r0, q0, 1, p.transactionId);
    var q1 := q0.(transactionId := p.transactionId);
    var r2 := r1 + LenRecord(2, Utf8.Encode(p.senderId));
    MergeText(EMPTY, r1, q1, 2, p.senderId);
    var q2 := q1.(senderId := p.senderId);
    var r3 := r2 + LenRecord(3, Utf8.Encode(p.recipientId));
    MergeText(EMPTY, r2, q2, 3, p.recipientId);
    var q3 := q2.(recipientId := p.recipientId);
    var r4 := r3 + LenRecord(4, Utf8.Encode(p.tlpMarking));
    MergeText(EMPTY, r3, q3, 4, p.tlpMarking);
    var q4 := q3.(tlpMarking := p.tlpMarking);
    var r5 := r4 + LenRecord(5, p.stixBundleCompressed);
    MergeData(EMPTY, r4, q4, 5, p.stixBundleCompressed);
    var q5 := q4.(stixBundleCompressed := p.stixBundleCompressed);
    var r6 := r5 + LenRecord(6, p.signature);
    MergeData(EMPTY, r5, q5, 6, p.signature);
    var q6 := q5.(signature := p.signature);
    var r7 := r6 + LenRecord(7, Utf8.Encode(p.signerCertFingerprint));
    MergeText(EMPTY, r6, q6, 7, p.signerCertFingerprint);
    var q7 := q6.(signerCertFingerprint := p.signerCertFingerprint);
    assert r0 + LenRecord(1, Utf8.Encode(p.transactionId)) == LenRecord(1, Utf8.Encode(p.transactionId));
    MergeTimestamp(r7, q7, p);
  }

  lemma {:induction false} RecordSizes(fs: seq<Field>)
    ensures forall i :: 0 <= i < |fs| && fs[i].LenField? ==> |fs[i].data| <= |EncodeFields(fs)|
  {
    if fs != [] {
      RecordSizes(fs[1..]);
      forall i | 0 <= i < |fs| && fs[i].LenField?
        ensures |fs[i].data| <= |EncodeFields(fs)|
      {
        if i > 0 {
          assert fs[i] == fs[1..][i - 1];
        }
      }
    }
  }

  lemma InLenRecord(number: nat, data: seq<byte>, f: Field)
    ensures f in LenRecord(number, data) ==> f.LenField? && f.number == number
  {
  }

  lemma RecordsInRange(p: ProtoEnvelope, f: Field)
    requires IsInt64(p.createdAtUnixMs) && f in Records(p)
    ensures 1 <= f.number <= 8
    ensures f.LenField? || (f.VarintField? && f.value < U64_LIMIT)
  {
    InLenRecord(1, Utf8.Encode(p.transactionId), f);
    InLenRecord(2, Utf8.Encode(p.senderId), f);
    InLenRecord(3, Utf8.Encode(p.recipientId), f);
    InLenRecord(4, Utf8.Encode(p.tlpMarking), f);
    InLenRecord(5, p.stixBundleCompressed, f);
    InLenRecord(6, p.signature, f);
    InLenRecord(7, Utf8.Encode(p.signerCertFingerprint), f);
  }

  lemma ProtoRoundTrip(p: ProtoEnvelope)
    requires IsInt64(p.createdAtUnixMs)
    requires |EncodeFields(Records(p))| <= MAX_MESSAGE_SIZE
    ensures ParseProto(EncodeFields(Records(p))) == Some(p)
  {
    var fs := Records(p);
    forall i | 0 <= i < |fs|
      ensures ValidField(fs[i])
    {
      RecordsInRange(p, fs[i]);
      RecordSizes(fs);
    }
    RecordsRoundTrip(fs);
    MergeRecords(p);
  }

  lemma FieldsRoundTrip(e: TransactionEnvelope)
    requires ToProto(e).Ok?
    ensures FromProto(ToProto(e).value) == Ok(e)
  {
    assert TlpOf(TlpText(e.tlpMarking)) == Some(e.tlpMarking) && TlpText(e.tlpMarking) != "";
  }

  /**
   * Serializing and parsing gives back the same envelope: empty fields, negative timestamps and all three
   * markings included.
   */
  lemma EnvelopeRoundTrip(e: TransactionEnvelope)
    requires ToBytes(e).Ok?
    ensures FromBytes(ToBytes(e).value) == Ok(e)
  {
    ProtoRoundTrip(ToProto(e).value);
    FieldsRoundTrip(e);
  }
}
