/**
 * Inputs on which the receiver does not do what one might expect of it: the same bytes answered differently by
 * how they are cut, and an ingested transaction answered with a NACK.
 */
module Witnesses {
  import opened Basics
  import opened FrameCodec
  import opened Protobuf
  import opened Envelope
  import opened Responses
  import opened Gates
  import opened Handler
  import opened HandlerProperties
  import opened ReceiverCode
  import InboundPep
  import TrustStore
  import Utf8
  import Vectors

  // ----- Cutting a stream into reads -----

  /** Reads of at most `READ_SIZE` bytes that carry `data`. */
  function Pieces(data: seq<byte>): (chunks: seq<seq<byte>>)
    ensures AreReads(chunks) && forall i :: 0 <= i < |chunks| ==> |chunks[i]| <= READ_SIZE
    decreases |data|
  {
    if data == [] then []
    else if |data| <= READ_SIZE then [data]
    else [data[..READ_SIZE]] + Pieces(data[READ_SIZE..])
  }

  lemma {:induction false} PiecesCarry(data: seq<byte>)
    ensures Flatten(Pieces(data)) == data
    decreases |data|
  {
    if data != [] && |data| <= READ_SIZE {
      assert [data][1..] == [];
      assert Flatten([data]) == data + Flatten([]);
    } else if data != [] {
      PiecesCarry(data[READ_SIZE..]);
      assert Pieces(data)[1..] == Pieces(data[READ_SIZE..]);
    }
  }

  /** Parts of a stream end before the stream does. */
  lemma EarlierReadsEndEarlier(chunks: seq<seq<byte>>, k: nat)
    requires chunks != [] && AreReads(chunks) && k < |chunks|
    ensures |Flatten(chunks[..k])| < |Flatten(chunks)|
  {
    FlattenConcat(chunks[..k], chunks[k..]);
    assert chunks == chunks[..k] + chunks[k..];
    assert Flatten(chunks[k..]) == chunks[k] + Flatten(chunks[k + 1..]);
  }

  /** A complete frame of the kind that is processed. */
  function BundleFrame(payload: seq<byte>): seq<byte>
    requires |payload| <= CAP
  {
    EncodeFrame(CAP, SignedBundle, payload).value
  }

  /** The last read extended by one byte. */
  function Extended(chunks: seq<seq<byte>>, b: byte): seq<seq<byte>>
    requires chunks != []
  {
    chunks[..|chunks| - 1] + [chunks[|chunks| - 1] + [b]]
  }

  lemma SameStream(chunks: seq<seq<byte>>, b: byte)
    requires chunks != []
    ensures Flatten(chunks + [[b]]) == Flatten(Extended(chunks, b)) == Flatten(chunks) + [b]
  {
    var n := |chunks| - 1;
    FlattenAppend(chunks, [b]);
    FlattenAppend(chunks[..n], chunks[n] + [b]);
    FlattenAppend(chunks[..n], chunks[n]);
    ConcatAssociates(Flatten(chunks[..n]), chunks[n], [b]);
    assert chunks == chunks[..n] + [chunks[n]];
  }

  lemma NoReadEndsAtFrame(chunks: seq<seq<byte>>, b: byte)
    requires chunks != [] && AreReads(chunks)
    ensures !ReadEndsAt(0, Extended(chunks, b), |Flatten(chunks)|)
  {
    var n := |chunks| - 1;
    forall k | 0 <= k <= |chunks|
      ensures |Flatten(Extended(chunks, b)[..k])| != |Flatten(chunks)|
    {
      if k <= n {
        EarlierReadsEndEarlier(chunks, k);
        assert Extended(chunks, b)[..k] == chunks[..k];
      } else {
        SameStream(chunks, b);
        assert Extended(chunks, b)[..k] == Extended(chunks, b);
      }
    }
  }

  lemma ProcessedPayload(g: Gateway, peer: string, c: Connection, payload: seq<byte>)
    ensures Process(g, peer, c, payload).payload == Some(payload)
  {
    var exam := Examine(g, peer, payload);
    if exam.verdict.Refuse? {
      var examined := c.(payload := Some(payload), trace := c.trace + exam.trace);
      SendAnswers(examined, exam.id, exam.verdict.guard, NackOf(exam.id, exam.verdict.reason));
    }
  }

  /** What the codec finds in a frame with one more byte. */
  lemma FrameAndByte(payload: seq<byte>, b: byte)
    requires |payload| <= CAP
    ensures var frame := BundleFrame(payload);
            && DecodeFrameStream(CAP, frame + [b]) == Ok(Frame(SignedBundle, payload, [b]))
            && (frame + [b])[..|frame|] == frame
  {
    DecodeEncoded(CAP, SignedBundle, payload, [b]);
  }

  lemma ReadStopsAtFrame(chunks: seq<seq<byte>>, b: byte)
    ensures ReadEndsAt(0, chunks + [[b]], |Flatten(chunks)|)
  {
    assert (chunks + [[b]])[..|chunks|] == chunks;
  }

  lemma ProcessedIfReadStops(g: Gateway, peer: string, payload: seq<byte>, chunks: seq<seq<byte>>, b: byte)
    requires |payload| <= CAP && AreReads(chunks) && Flatten(chunks) == BundleFrame(payload)
    ensures Deliver(g, peer, START, chunks + [[b]]) == Process(g, peer, START.(buffer := BundleFrame(payload)), payload)
  {
    FlattenAppend(chunks, [b]);
    FrameAndByte(payload, b);
    ReadStopsAtFrame(chunks, b);
    Chunking(g, peer, chunks + [[b]]);
  }

  lemma UnreadIfItDoesNot(g: Gateway, peer: string, payload: seq<byte>, chunks: seq<seq<byte>>, b: byte)
    requires |payload| <= CAP && AreReads(chunks) && chunks != [] && Flatten(chunks) == BundleFrame(payload)
    ensures NackedUnread(Deliver(g, peer, START, Extended(chunks, b)))
  {
    SameStream(chunks, b);
    FrameAndByte(payload, b);
    NoReadEndsAtFrame(chunks, b);
    Chunking(g, peer, Extended(chunks, b));
  }

  /**
   * The same bytes, a whole SIGNED_BUNDLE frame and one byte more: if some read stops at the frame's last byte the
   * frame is processed, and if the last byte arrives in one read with the extra one it is NACKed unread.
   */
  lemma SameBytesOtherAnswer(g: Gateway, peer: string, payload: seq<byte>, chunks: seq<seq<byte>>, b: byte)
    requires |payload| <= CAP && AreReads(chunks) && Flatten(chunks) == BundleFrame(payload)
    ensures chunks != [] && Flatten(chunks + [[b]]) == Flatten(Extended(chunks, b))
    ensures Deliver(g, peer, START, chunks + [[b]]) == Process(g, peer, START.(buffer := BundleFrame(payload)), payload)
    ensures Deliver(g, peer, START, chunks + [[b]]).payload == Some(payload)
    ensures NackedUnread(Deliver(g, peer, START, Extended(chunks, b)))
  {
    ProcessedIfReadStops(g, peer, payload, chunks, b);
    ProcessedPayload(g, peer, START.(buffer := BundleFrame(payload)), payload);
    SameStream(chunks, b);
    UnreadIfItDoesNot(g, peer, payload, chunks, b);
  }

  // ----- Ingested and NACKed -----

  /** Two million control characters, each of which JSON writes with six. */
  function LongId(n: nat): string {
    seq(n, _ => 1 as char)
  }

  const LONG := 2_000_000

  lemma {:induction false} LongIdEscapes(n: nat)
    ensures EscapedSize(LongId(n)) == 6 * n
  {
    if n > 0 {
      LongIdEscapes(n - 1);
      assert LongId(n)[1..] == LongId(n - 1);
    }
  }

  lemma LongIdDoesNotFit(reason: NackReason)
    ensures !Fits(AckOf(LongId(LONG))) && !Fits(NackOf(LongId(LONG), reason))
  {
    LongIdEscapes(LONG);
  }

  function LongEnvelope(): TransactionEnvelope {
    TransactionEnvelope(LongId(LONG), "A", "B", Green, [1], [1], "", 0)
  }

  lemma RecordAtMost(number: nat, data: seq<byte>)
    requires 1 <= number <= 15 && |data| < U64_LIMIT
    ensures |EncodeFields(LenRecord(number, data))| <= 11 + |data|
  {
    if data != [] {
      var fs := [LenField(number, data)];
      assert fs[1..] == [];
      VarintFits(|data|);
      assert |Varint(8 * number + 2)| == 1;
      assert EncodeFields(fs) == EncodeField(fs[0]) + [];
    }
  }

  lemma TextAtMost(number: nat, text: string)
    requires 1 <= number <= 15 && IsAscii(text) && |text| < U64_LIMIT
    ensures |Vectors.TextRecord(number, text)| <= 11 + |text|
  {
    AsciiSize(text);
    RecordAtMost(number, Utf8.Encode(text));
  }

  /** The size of a message with ASCII texts and no timestamp. */
  lemma MessageAtMost(p: ProtoEnvelope)
    requires p.createdAtUnixMs == 0
    requires IsAscii(p.transactionId) && IsAscii(p.senderId) && IsAscii(p.recipientId) && IsAscii(p.tlpMarking)
    requires IsAscii(p.signerCertFingerprint) && |p.signerCertFingerprint| < 100
    requires |p.transactionId| <= LONG && |p.senderId| < 100 && |p.recipientId| < 100 && |p.tlpMarking| < 100
    requires |p.stixBundleCompressed| < 100 && |p.signature| < 100
    ensures |EncodeFields(Records(p))| <= LONG + 700
  {
    Vectors.RecordsInOrder(p);
    TextAtMost(1, p.transactionId);
    TextAtMost(2, p.senderId);
    TextAtMost(3, p.recipientId);
    TextAtMost(4, p.tlpMarking);
    RecordAtMost(5, p.stixBundleCompressed);
    RecordAtMost(6, p.signature);
    TextAtMost(7, p.signerCertFingerprint);
    assert Vectors.TimeRecord(0) == [];
  }

  lemma LongMessage()
    ensures ToProto(LongEnvelope()).Ok? && |EncodeFields(Records(ToProto(LongEnvelope()).value))| <= LONG + 700
  {
    MessageAtMost(ToProto(LongEnvelope()).value);
  }

  lemma Serializes(e: TransactionEnvelope) returns (payload: seq<byte>)
    requires ToProto(e).Ok? && |EncodeFields(Records(ToProto(e).value))| <= CAP
    ensures ToBytes(e) == Ok(payload) && |payload| <= CAP && FromBytes(payload) == Ok(e)
  {
    payload := EncodeFields(Records(ToProto(e).value));
    EnvelopeRoundTrip(e);
  }

  lemma IngestedThenNacked(exam: Exam, c: Connection)
    requires exam.verdict.Admit? && c.phase == Ingesting(exam.id, exam.verdict.document) && c.writes == []
    requires !Fits(AckOf(exam.id)) && !Fits(NackOf(exam.id, Malformed))
    ensures var c' := Conclude(c, true, []);
            Delivered(c') && c'.writes == [NACK_ZERO] && c'.phase.Closed?
  {
    ShortIdsFit(NACK_ZERO);
    var done := c.(ingest := Some(true), trace := c.trace + [Ingested(exam.verdict.document, true)]);
    assert AfterIngest(c, true) ==
           done.(phase := Draining("0", Unguarded, NACK_ZERO), writes := [NACK_ZERO],
                 trace := done.trace + [Wrote(NACK_ZERO)]);
    var c' := Conclude(c, true, []);
    assert c'.trace[|c.trace|] == Ingested(exam.verdict.document, true);
  }

  /** An admitted payload whose id fits in no response is ingested and then answered NACK "0", however it is cut. */
  lemma AdmittedThenNacked(g: Gateway, peer: string, payload: seq<byte>, chunks: seq<seq<byte>>)
    requires |payload| <= CAP && AreReads(chunks) && Flatten(chunks) == BundleFrame(payload)
    requires Examine(g, peer, payload).verdict.Admit?
    requires var id := Examine(g, peer, payload).id; !Fits(AckOf(id)) && !Fits(NackOf(id, Malformed))
    ensures var c := Serve(g, peer, START, Reads(chunks), true, []);
            Delivered(c) && c.writes == [NackOf("0", Malformed)] && c.phase.Closed?
  {
    var frame := BundleFrame(payload);
    DecodeEncoded(CAP, SignedBundle, payload, []);
    assert frame + [] == frame && frame[..|frame|] == frame;
    assert chunks[..|chunks|] == chunks;
    assert ReadEndsAt(0, chunks, |frame|);
    Chunking(g, peer, chunks);
    assert Reads(chunks) + [] == Reads(chunks);
    ServeDelivers(g, peer, START, chunks, [], true, []);
    IngestedThenNacked(Examine(g, peer, payload), Process(g, peer, START.(buffer := frame), payload));
  }

  /** A gateway B that knows one agency and lets everything of it through. */
  function OpenGateway(): Gateway {
    Gateway(
      TrustStore.View(map["A" := TrustStore.Agency(Some("P"), Some("K"), Some("path"))], {}),
      [InboundPep.Rule(Some("*"), Some("*"), Some("*"), Some("ALLOW"))],
      (_: seq<byte>, _: seq<byte>, _: string) => true,
      (data: seq<byte>) => Some(data),
      (data: seq<byte>) => Some(StixDocument(Some("bundle"), true, data)))
  }

  lemma OpenGatewayAdmits(e: TransactionEnvelope)
    requires Complete(e) && e.senderId == "A"
    ensures Identify(OpenGateway(), "P", e).verdict.Admit? && Identify(OpenGateway(), "P", e).id == e.transactionId
  {
  }

  /**
   * A NACK without refusal: the long envelope fits in a frame, and every gateway that admits its payload ingests
   * it and answers NACK "0" MALFORMED, however the frame is cut into reads; and there is such a gateway.
   */
  lemma IngestedButNacked(g: Gateway, peer: string, chunks: seq<seq<byte>>) returns (payload: seq<byte>)
    ensures ToBytes(LongEnvelope()) == Ok(payload) && |payload| <= CAP
    ensures Examine(OpenGateway(), "P", payload).verdict.Admit?
    ensures Flatten(Pieces(BundleFrame(payload))) == BundleFrame(payload)
    ensures AreReads(chunks) && Flatten(chunks) == BundleFrame(payload) && Examine(g, peer, payload).verdict.Admit? ==>
              var c := Serve(g, peer, START, Reads(chunks), true, []);
              Delivered(c) && c.writes == [NackOf("0", Malformed)]
  {
    LongMessage();
    payload := Serializes(LongEnvelope());
    assert LongId(LONG)[0] == 1 as char;
    OpenGatewayAdmits(LongEnvelope());
    PiecesCarry(BundleFrame(payload));
    if AreReads(chunks) && Flatten(chunks) == BundleFrame(payload) && Examine(g, peer, payload).verdict.Admit? {
      ExamTrace(g, peer, payload);
      LongIdDoesNotFit(Malformed);
      AdmittedThenNacked(g, peer, payload, chunks);
    }
  }
}
