/** What gateway B's handler guarantees on every run, for every chunking of the input and every failure pattern. */
module HandlerProperties {
  import opened Basics
  import opened FrameCodec
  import opened Responses
  import opened Gates
  import opened Envelope
  import opened Handler

  // ----- Order of checks -----

  /** `trace[i]` is a decompression made only after the same bytes were verified and the policy allowed them. */
  ghost predicate InflatedAfterChecks(trace: seq<Event>, i: int)
    requires 0 <= i < |trace| && trace[i].Inflated?
  {
    exists v, p :: 0 <= v < p < i && trace[v].Verified? && trace[v].data == trace[i].data && trace[v].valid
                   && trace[p].PolicyChecked? && trace[p].allowed
  }

  lemma CheckedOrder(e: TransactionEnvelope, trace: seq<Event>, i: int)
    requires OrderedChecks(e, trace) && 0 <= i < |trace|
    ensures trace[i].Inflated? ==> InflatedAfterChecks(trace, i)
    ensures !trace[i].Ingested? && !trace[i].Wrote? && !trace[i].Logged?
  {
    if trace[i].Inflated? {
      assert i == 2;
      assert trace[0] == AllChecks(e)[0] && trace[1] == AllChecks(e)[1];
      assert 0 <= 0 < 1 < i && trace[0].Verified? && trace[0].data == trace[i].data && trace[0].valid
             && trace[1].PolicyChecked? && trace[1].allowed;
    }
  }

  /** Once the ingestor was called, the trace starts with the three successful checks and its answer. */
  ghost predicate IngestedAfterChecks(g: Gateway, peer: string, c: Connection, i: int)
    requires 0 <= i < |c.trace| && c.trace[i].Ingested?
  {
    && c.payload.Some? && FromBytes(c.payload.value).Ok?
    && var e := FromBytes(c.payload.value).value;
    && (forall gate: Gate :: Passes(g, peer, c.payload.value, gate))
    && i == 3 && c.trace[..3] == AllChecks(e)
    && BundleOf(g, e) == Some(c.trace[i].document)
    && c.ingest == Some(c.trace[i].accepted)
  }

  lemma TraceAfterExam(exam: Exam, c: Connection, i: int)
    requires InvExamined(exam, c) && |exam.trace| <= i < |c.trace|
    ensures c.trace[..|exam.trace|] == exam.trace
    ensures !c.trace[i].Inflated?
    ensures c.trace[i].Ingested? ==>
              && exam.verdict.Admit? && i == |exam.trace|
              && c.trace[i].document == exam.verdict.document && c.ingest == Some(c.trace[i].accepted)
  {
  }

  lemma IngestedTrace(g: Gateway, peer: string, c: Connection, i: int)
    requires Inv(g, peer, c) && 0 <= i < |c.trace| && c.trace[i].Ingested?
    ensures IngestedAfterChecks(g, peer, c, i)
  {
    var payload := c.payload.value;
    var exam := Examine(g, peer, payload);
    ExamTrace(g, peer, payload);
    assert exam.trace <= c.trace;
    if i < |exam.trace| {
      CheckedOrder(FromBytes(payload).value, exam.trace, i);
    } else {
      TraceAfterExam(exam, c, i);
      ExamineFollowsGates(g, peer, payload, Decodes);
    }
  }

  lemma InflatedTrace(g: Gateway, peer: string, c: Connection, i: int)
    requires Inv(g, peer, c) && 0 <= i < |c.trace| && c.trace[i].Inflated?
    ensures InflatedAfterChecks(c.trace, i)
  {
    var payload := c.payload.value;
    var exam := Examine(g, peer, payload);
    ExamTrace(g, peer, payload);
    assert exam.trace <= c.trace;
    if i < |exam.trace| {
      CheckedOrder(FromBytes(payload).value, exam.trace, i);
      var v, p :| 0 <= v < p < i && exam.trace[v].Verified? && exam.trace[v].data == exam.trace[i].data
                  && exam.trace[v].valid && exam.trace[p].PolicyChecked? && exam.trace[p].allowed;
      assert c.trace[v] == exam.trace[v] && c.trace[p] == exam.trace[p];
    } else {
      TraceAfterExam(exam, c, i);
    }
  }

  /**
   * Verify before decompress, and everything before ingest: in every run a decompression follows a successful
   * signature check and a policy allow on the same bytes, and an ingest follows all three, for a payload that
   * passes every gate and the document those bytes contain.
   */
  lemma ChecksPrecedeEffects(g: Gateway, peer: string, inputs: seq<Input>, i: int)
    requires 0 <= i < |Run(g, peer, inputs).trace|
    ensures var c := Run(g, peer, inputs);
            && (c.trace[i].Inflated? ==> InflatedAfterChecks(c.trace, i))
            && (c.trace[i].Ingested? ==> IngestedAfterChecks(g, peer, c, i))
  {
    RunKeepsInv(g, peer, inputs);
    var c := Run(g, peer, inputs);
    if c.trace[i].Inflated? {
      InflatedTrace(g, peer, c, i);
    } else if c.trace[i].Ingested? {
      IngestedTrace(g, peer, c, i);
    }
  }

  // ----- Response discipline -----

  /** The ingestor returned true on this connection. */
  ghost predicate Delivered(c: Connection) {
    exists i :: 0 <= i < |c.trace| && c.trace[i].Ingested? && c.trace[i].accepted
  }

  lemma DeliveredIsIngestTrue(g: Gateway, peer: string, c: Connection)
    requires Inv(g, peer, c)
    ensures Delivered(c) <==> c.ingest == Some(true)
  {
    if Delivered(c) {
      var i :| 0 <= i < |c.trace| && c.trace[i].Ingested? && c.trace[i].accepted;
      IngestedTrace(g, peer, c, i);
    }
    if c.ingest == Some(true) {
      var exam := Examine(g, peer, c.payload.value);
      assert c.trace[|exam.trace|] == Ingested(exam.verdict.document, true);
    }
  }

  lemma AckIsForDelivery(g: Gateway, peer: string, c: Connection, i: int)
    requires Inv(g, peer, c) && 0 <= i < |c.writes| && c.writes[i].AckOf?
    ensures i == 0 && c.ingest == Some(true)
    ensures c.payload.Some? && FromBytes(c.payload.value).Ok?
    ensures c.writes[i] == AckOf(FromBytes(c.payload.value).value.transactionId)
  {
    ExamTrace(g, peer, c.payload.value);
  }

  /** The trace is `n` events without a write, then the writes in order, then at most the log record of an ACK. */
  ghost predicate Layout(c: Connection, n: nat) {
    && |c.trace| == n + |c.writes| + (if AckDrained(c) then 1 else 0)
    && (forall k :: 0 <= k < n ==> !c.trace[k].Wrote? && !c.trace[k].Logged?)
    && (forall k :: n <= k < n + |c.writes| ==> c.trace[k] == Wrote(c.writes[k - n]))
    && (c.ingest.Some? ==> n >= 1 && c.trace[n - 1].Ingested? && c.trace[n - 1].accepted == c.ingest.value)
    && (AckDrained(c) ==> c.ingest == Some(true) && c.trace[|c.trace| - 1] == Logged(c.writes[0].id))
  }

  ghost predicate Effectless(trace: seq<Event>) {
    forall k :: 0 <= k < |trace| ==> !trace[k].Ingested? && !trace[k].Wrote? && !trace[k].Logged?
  }

  lemma RefusedLayout(exam: Exam, c: Connection)
    requires exam.verdict.Refuse? && InvRefused(exam, c) && Effectless(exam.trace)
    ensures Layout(c, |exam.trace|)
  {
  }

  lemma LayoutFromPrefix(c: Connection, unlogged: seq<Event>, n: nat, id: string)
    requires |unlogged| == n + |c.writes|
    requires c.trace == unlogged + if AckDrained(c) then [Logged(id)] else []
    requires AckDrained(c) ==> c.ingest == Some(true) && c.writes == [AckOf(id)]
    requires forall k :: 0 <= k < n ==> !unlogged[k].Wrote? && !unlogged[k].Logged?
    requires forall k :: n <= k < n + |c.writes| ==> unlogged[k] == Wrote(c.writes[k - n])
    requires c.ingest.Some? ==> n >= 1 && unlogged[n - 1].Ingested? && unlogged[n - 1].accepted == c.ingest.value
    ensures Layout(c, n)
  {
  }

  lemma IngestedLayout(exam: Exam, c: Connection, accepted: bool)
    requires exam.verdict.Admit? && InvIngested(exam, c, accepted) && Effectless(exam.trace)
    requires c.ingest == Some(accepted)
    ensures Layout(c, |exam.trace| + 1)
  {
    var before := exam.trace + [Ingested(exam.verdict.document, accepted)];
    var n := |before|;
    var unlogged := before + Written(c.writes);
    assert unlogged + [] == unlogged;
    assert unlogged <= c.trace;
    assert forall k :: 0 <= k < n ==> !unlogged[k].Wrote? && !unlogged[k].Logged?;
    assert forall k :: n <= k < n + |c.writes| ==> unlogged[k] == Wrote(c.writes[k - n]);
    assert unlogged[n - 1] == Ingested(exam.verdict.document, accepted);
    LayoutFromPrefix(c, unlogged, n, exam.id);
  }

  ghost function Lead(g: Gateway, peer: string, c: Connection): nat {
    if c.payload.None? then 0
    else |Examine(g, peer, c.payload.value).trace| + if c.ingest.Some? then 1 else 0
  }

  lemma ExamHasNoEffects(g: Gateway, peer: string, payload: seq<byte>)
    ensures Effectless(Examine(g, peer, payload).trace)
  {
    var exam := Examine(g, peer, payload);
    ExamTrace(g, peer, payload);
    forall i | 0 <= i < |exam.trace|
      ensures !exam.trace[i].Ingested? && !exam.trace[i].Wrote? && !exam.trace[i].Logged?
    {
      CheckedOrder(FromBytes(payload).value, exam.trace, i);
    }
  }

  lemma ExaminedLayout(exam: Exam, c: Connection)
    requires InvExamined(exam, c) && Effectless(exam.trace)
    ensures Layout(c, |exam.trace| + if c.ingest.Some? then 1 else 0)
  {
    if exam.verdict.Refuse? {
      RefusedLayout(exam, c);
    } else if c.ingest.Some? {
      IngestedLayout(exam, c, c.ingest.value);
    }
  }

  lemma UnreadLayout(c: Connection)
    requires InvNoPayload(c)
    ensures Layout(c, 0)
  {
  }

  lemma TraceLayout(g: Gateway, peer: string, c: Connection)
    requires Inv(g, peer, c)
    ensures Layout(c, Lead(g, peer, c))
  {
    if c.payload.Some? {
      ExamHasNoEffects(g, peer, c.payload.value);
      ExaminedLayout(Examine(g, peer, c.payload.value), c);
    } else {
      UnreadLayout(c);
    }
  }

  lemma LayoutDiscipline(c: Connection, n: nat, i: int)
    requires Layout(c, n) && 0 <= i < |c.trace|
    requires forall k :: 0 <= k < |c.writes| && c.writes[k].AckOf? ==> k == 0 && c.ingest == Some(true)
    ensures c.trace[i].Wrote? && c.trace[i].response.AckOf? ==>
              && (forall k :: 0 <= k < i ==> !c.trace[k].Wrote?)
              && (exists k :: 0 <= k < i && c.trace[k].Ingested? && c.trace[k].accepted)
    ensures c.trace[i].Logged? <==> AckDrained(c) && i == |c.trace| - 1
    ensures c.trace[i].Logged? ==>
              && c.ingest == Some(true) && i > 0
              && c.trace[i - 1] == Wrote(AckOf(c.trace[i].id)) && c.writes == [AckOf(c.trace[i].id)]
  {
    if c.trace[i].Wrote? && c.trace[i].response.AckOf? {
      assert c.writes[i - n].AckOf?;
      assert i == n && c.trace[n - 1].Ingested? && c.trace[n - 1].accepted;
    }
  }

  /**
   * Under any pattern of drain failures an ACK is written at most once, only after the ingestor returned true,
   * and never after another response; and a telemetry record is the last event, made exactly when the handler
   * wrote an ACK, nothing else, and every drain returned.
   */
  lemma AckDiscipline(g: Gateway, peer: string, inputs: seq<Input>, i: int)
    requires 0 <= i < |Run(g, peer, inputs).trace|
    ensures var c := Run(g, peer, inputs);
            c.trace[i].Wrote? && c.trace[i].response.AckOf? ==>
              && (forall k :: 0 <= k < i ==> !c.trace[k].Wrote?)
              && (exists k :: 0 <= k < i && c.trace[k].Ingested? && c.trace[k].accepted)
    ensures var c := Run(g, peer, inputs);
            c.trace[i].Logged? <==> AckDrained(c) && i == |c.trace| - 1
    ensures var c := Run(g, peer, inputs);
            c.trace[i].Logged? ==>
              && Delivered(c) && i > 0
              && c.trace[i - 1] == Wrote(AckOf(c.trace[i].id)) && c.writes == [AckOf(c.trace[i].id)]
  {
    RunKeepsInv(g, peer, inputs);
    var c := Run(g, peer, inputs);
    TraceLayout(g, peer, c);
    DeliveredIsIngestTrue(g, peer, c);
    var n := Lead(g, peer, c);
    forall k | 0 <= k < |c.writes| && c.writes[k].AckOf?
      ensures k == 0 && c.ingest == Some(true)
    {
      AckIsForDelivery(g, peer, c, k);
    }
    LayoutDiscipline(c, n, i);
  }

  /** The response an uninterrupted handler owes for what it received. */
  ghost function Owed(g: Gateway, peer: string, c: Connection): Response
    requires c.payload.Some?
  {
    var exam := Examine(g, peer, c.payload.value);
    match exam.verdict
    case Refuse(reason, _) => NackOf(exam.id, reason)
    case Admit(_) => if c.ingest == Some(true) then AckOf(exam.id) else NackOf(exam.id, IngestFailed)
  }

  /**
   * If no drain fails, a connection that has seen a whole frame or a bad header ends with exactly one response:
   * NACK "0" MALFORMED for a frame turned away, the first failing gate's NACK or the ACK for a processed one
   * (whenever the id fits in a frame). A connection that saw neither ends with none.
   */
  lemma ExactlyOneResponse(g: Gateway, peer: string, inputs: seq<Input>)
    requires Run(g, peer, inputs).phase.Closed? && Run(g, peer, inputs).failures == 0
    ensures var c := Run(g, peer, inputs);
            && (c.payload.Some? ==> |c.writes| == 1 && (Fits(Owed(g, peer, c)) ==> c.writes == [Owed(g, peer, c)]))
            && (c.payload.None? ==> c.writes == if TurnedAway(c.buffer) then [NackOf("0", Malformed)] else [])
  {
    RunKeepsInv(g, peer, inputs);
  }

  /**
   * A NACK as the first answer means the bundle was not ingested, except exactly when the ACK for its id is too
   * large to be framed: then the ingested transaction is answered with a NACK.
   */
  lemma FirstNackAndIngest(g: Gateway, peer: string, inputs: seq<Input>)
    requires Delivered(Run(g, peer, inputs))
    ensures var c := Run(g, peer, inputs);
            && c.writes != [] && c.payload.Some? && FromBytes(c.payload.value).Ok?
            && (c.writes[0].NackOf? <==> !Fits(AckOf(FromBytes(c.payload.value).value.transactionId)))
  {
    RunKeepsInv(g, peer, inputs);
    var c := Run(g, peer, inputs);
    DeliveredIsIngestTrue(g, peer, c);
    ExamTrace(g, peer, c.payload.value);
  }

  // ----- The receive buffer -----

  lemma ProcessBuffer(g: Gateway, peer: string, c: Connection, payload: seq<byte>)
    ensures Process(g, peer, c, payload).buffer == c.buffer
    ensures !Process(g, peer, c, payload).phase.Reading?
  {
    var exam := Examine(g, peer, payload);
    if exam.verdict.Refuse? {
      var examined := c.(payload := Some(payload), trace := c.trace + exam.trace);
      SendAnswers(examined, exam.id, exam.verdict.guard, NackOf(exam.id, exam.verdict.reason));
    }
  }

  lemma ReceiveBuffer(g: Gateway, peer: string, c: Connection, chunk: seq<byte>)
    ensures Receive(g, peer, c, chunk).buffer == c.buffer + chunk
  {
    var read := c.(buffer := c.buffer + chunk);
    SendAnswers(read, "0", Unguarded, NACK_ZERO);
    SendAnswers(read, "0", FrameGuard, NACK_ZERO);
    var d := DecodeFrameStream(CAP, read.buffer);
    if d.Ok? && d.value.Frame? {
      ProcessBuffer(g, peer, read, d.value.payload);
    }
  }

  lemma NeedMoreBuffer(buffer: seq<byte>)
    requires DecodeFrameStream(CAP, buffer) == Ok(NeedMore)
    ensures |buffer| <= CAP + 4
  {
  }

  lemma ProceedBuffer(c: Connection, input: Input)
    ensures Proceed(c, input).buffer == c.buffer
  {
    if c.phase.Ingesting? && input.IngestReturned? {
      var id := c.phase.id;
      var done := c.(ingest := Some(input.accepted), trace := c.trace + [Ingested(c.phase.document, input.accepted)]);
      SendAnswers(done, id, TransactionGuard, if input.accepted then AckOf(id) else NackOf(id, IngestFailed));
    } else if c.phase.Draining? && input.DrainRaised? {
      RaiseAnswers(c.(failures := c.failures + 1), c.phase.id, c.phase.guard, false);
    }
  }

  lemma StepBuffer(g: Gateway, peer: string, c: Connection, input: Input)
    requires Inv(g, peer, c)
    ensures var c' := Step(g, peer, c, input);
            if c.phase.Reading? && input.Data? then c'.buffer == c.buffer + input.chunk && |c.buffer| <= CAP + 4
            else c'.buffer == c.buffer
  {
    if c.phase.Reading? && input.Data? {
      NeedMoreBuffer(c.buffer);
      ReceiveBuffer(g, peer, c, input.chunk);
    } else {
      ProceedBuffer(c, input);
    }
  }

  /** The receive buffer stays within one maximal frame and one read. */
  lemma {:induction false} BufferBound(g: Gateway, peer: string, inputs: seq<Input>)
    requires forall i :: 0 <= i < |inputs| && inputs[i].Data? ==> |inputs[i].chunk| <= 4096
    ensures |Run(g, peer, inputs).buffer| <= 10_485_760 + 4100
  {
    if inputs != [] {
      var last := |inputs| - 1;
      var c := Run(g, peer, inputs[..last]);
      BufferBound(g, peer, inputs[..last]);
      RunKeepsInv(g, peer, inputs[..last]);
      var c' := Run(g, peer, inputs);
      assert c' == Step(g, peer, c, inputs[last]);
      StepBuffer(g, peer, c, inputs[last]);
    }
  }

  // ----- Chunking -----

  /** Reads are delivered until the handler stops reading. */
  function Deliver(g: Gateway, peer: string, c: Connection, chunks: seq<seq<byte>>): Connection
    decreases |chunks|
  {
    if chunks == [] || !c.phase.Reading? then c
    else Deliver(g, peer, Step(g, peer, c, Data(chunks[0])), chunks[1..])
  }

  /** Some read ends exactly `n` bytes into the stream, `start` bytes having been read before. */
  ghost predicate ReadEndsAt(start: nat, chunks: seq<seq<byte>>, n: nat) {
    exists k :: 0 <= k <= |chunks| && start + |Flatten(chunks[..k])| == n
  }

  lemma {:induction false} ReadEndsAtRest(start: nat, chunks: seq<seq<byte>>, n: nat)
    requires chunks != []
    ensures ReadEndsAt(start, chunks, n) <==> start == n || ReadEndsAt(start + |chunks[0]|, chunks[1..], n)
  {
    assert Flatten(chunks[..0]) == [];
    forall k | 0 <= k <= |chunks| - 1
      ensures start + |chunks[0]| + |Flatten(chunks[1..][..k])| == start + |Flatten(chunks[..k + 1])|
    {
      assert chunks[..k + 1][1..] == chunks[1..][..k];
    }
    if ReadEndsAt(start, chunks, n) && start != n {
      var k :| 0 <= k <= |chunks| && start + |Flatten(chunks[..k])| == n;
      assert k != 0;
      assert start + |chunks[0]| + |Flatten(chunks[1..][..k - 1])| == start + |Flatten(chunks[..k - 1 + 1])|;
    }
    if ReadEndsAt(start + |chunks[0]|, chunks[1..], n) {
      var k :| 0 <= k <= |chunks[1..]| && start + |chunks[0]| + |Flatten(chunks[1..][..k])| == n;
      assert start + |Flatten(chunks[..k + 1])| == n;
    }
  }

  ghost predicate Waiting(c: Connection) {
    c == START.(buffer := c.buffer) && DecodeFrameStream(CAP, c.buffer) == Ok(NeedMore)
  }

  /** The handler has answered NACK "0" MALFORMED, and nothing else, without looking into a payload. */
  ghost predicate NackedUnread(c: Connection) {
    && c.phase.Draining? && c.phase.guard in {FrameGuard, Unguarded} && c.phase.response == NackOf("0", Malformed)
    && c.payload.None? && c.writes == [NackOf("0", Malformed)] && c.trace == [Wrote(NackOf("0", Malformed))]
  }

  /** What becomes of the stream, from its bytes and the places where reads end. */
  ghost predicate Outcome(g: Gateway, peer: string, start: nat, chunks: seq<seq<byte>>, stream: seq<byte>,
                          c: Connection) {
    match DecodeFrameStream(CAP, stream)
    case Err(_) => NackedUnread(c)
    case Ok(NeedMore) => c == START.(buffer := stream)
    case Ok(Frame(msgType, payload, remaining)) =>
      var n: nat := |stream| - |remaining|;
      if msgType.SignedBundle? && ReadEndsAt(start, chunks, n)
      then c == Process(g, peer, START.(buffer := stream[..n]), payload)
      else NackedUnread(c)
  }

  lemma FrameLength(stream: seq<byte>)
    requires DecodeFrameStream(CAP, stream).Ok? && DecodeFrameStream(CAP, stream).value.Frame?
    ensures var f := DecodeFrameStream(CAP, stream).value;
            && |stream| - |f.remaining| == HEADER_SIZE + |f.payload|
            && DecodeFrameStream(CAP, stream[..|stream| - |f.remaining|]) == Ok(f.(remaining := []))
  {
    var f := DecodeFrameStream(CAP, stream).value;
    var whole := stream[..|stream| - |f.remaining|];
    assert whole[1..HEADER_SIZE] == stream[1..HEADER_SIZE];
    assert whole[HEADER_SIZE..HEADER_SIZE + |f.payload|] == stream[HEADER_SIZE..HEADER_SIZE + |f.payload|];
    assert whole[HEADER_SIZE + |f.payload|..] == [];
  }

  /** A frame that was not complete before a read ends inside it. */
  lemma FrameEndsLater(before: seq<byte>, chunk: seq<byte>)
    requires DecodeFrameStream(CAP, before) == Ok(NeedMore)
    requires DecodeFrameStream(CAP, before + chunk).Ok? && DecodeFrameStream(CAP, before + chunk).value.Frame?
    ensures |before| < |before + chunk| - |DecodeFrameStream(CAP, before + chunk).value.remaining|
  {
    FrameLength(before + chunk);
    if |before| >= HEADER_SIZE {
      assert before[1..HEADER_SIZE] == (before + chunk)[1..HEADER_SIZE];
    }
  }

  lemma ReadEndsHere(start: nat, chunks: seq<seq<byte>>, n: nat)
    requires n <= start
    ensures ReadEndsAt(start, chunks, n) <==> start == n
  {
    if start == n {
      assert start + |Flatten(chunks[..0])| == n;
    }
  }

  lemma DecidingFrame(g: Gateway, peer: string, start: nat, chunks: seq<seq<byte>>, buffer: seq<byte>,
                      stream: seq<byte>)
    requires chunks != [] && start + |chunks[0]| == |buffer|
    requires stream == buffer + Flatten(chunks[1..])
    requires DecodeFrameStream(CAP, buffer).Ok? && DecodeFrameStream(CAP, buffer).value.Frame?
    requires start < |buffer| - |DecodeFrameStream(CAP, buffer).value.remaining|
    ensures var f := DecodeFrameStream(CAP, buffer).value;
            var read := START.(buffer := buffer);
            Outcome(g, peer, start, chunks, stream,
                    if f.remaining != [] || !f.msgType.SignedBundle? then Send(read, "0", FrameGuard, NACK_ZERO)
                    else Process(g, peer, read, f.payload))
  {
    ShortIdsFit(NACK_ZERO);
    var later := Flatten(chunks[1..]);
    DecodeStable(CAP, buffer, later);
    var f := DecodeFrameStream(CAP, buffer).value;
    var n: nat := |buffer| - |f.remaining|;
    ReadEndsAtRest(start, chunks, n);
    ReadEndsHere(|buffer|, chunks[1..], n);
    assert |stream| - |f.remaining + later| == n;
    assert stream[..n] == buffer[..n];
    assert f.remaining == [] ==> buffer[..n] == buffer;
  }

  lemma DecidingError(g: Gateway, peer: string, start: nat, chunks: seq<seq<byte>>, buffer: seq<byte>,
                      stream: seq<byte>)
    requires chunks != [] && stream == buffer + Flatten(chunks[1..])
    requires DecodeFrameStream(CAP, buffer).Err?
    ensures Outcome(g, peer, start, chunks, stream, Send(START.(buffer := buffer), "0", Unguarded, NACK_ZERO))
  {
    ShortIdsFit(NACK_ZERO);
    DecodeStable(CAP, buffer, Flatten(chunks[1..]));
  }

  /** The read that ends the waiting: what it completes, and whether it stops at the frame's last byte. */
  lemma DecidingRead(g: Gateway, peer: string, c: Connection, chunks: seq<seq<byte>>, stream: seq<byte>)
    requires Waiting(c) && chunks != []
    requires stream == c.buffer + Flatten(chunks)
    requires DecodeFrameStream(CAP, c.buffer + chunks[0]) != Ok(NeedMore)
    ensures Outcome(g, peer, |c.buffer|, chunks, stream, Receive(g, peer, c, chunks[0]))
  {
    var buffer := c.buffer + chunks[0];
    assert stream == buffer + Flatten(chunks[1..]);
    if DecodeFrameStream(CAP, buffer).Err? {
      DecidingError(g, peer, |c.buffer|, chunks, buffer, stream);
    } else {
      FrameEndsLater(c.buffer, chunks[0]);
      DecidingFrame(g, peer, |c.buffer|, chunks, buffer, stream);
    }
  }

  lemma ReceiveStopsReading(g: Gateway, peer: string, c: Connection, chunk: seq<byte>)
    requires DecodeFrameStream(CAP, c.buffer + chunk) != Ok(NeedMore)
    ensures !Receive(g, peer, c, chunk).phase.Reading?
  {
    var read := c.(buffer := c.buffer + chunk);
    SendAnswers(read, "0", Unguarded, NACK_ZERO);
    SendAnswers(read, "0", FrameGuard, NACK_ZERO);
    var d := DecodeFrameStream(CAP, read.buffer);
    if d.Ok? {
      ProcessBuffer(g, peer, read, d.value.payload);
    }
  }

  /** A read that leaves the frame incomplete does not matter for the outcome. */
  lemma UndecidingRead(g: Gateway, peer: string, before: seq<byte>, chunks: seq<seq<byte>>, c: Connection)
    requires chunks != [] && DecodeFrameStream(CAP, before) == Ok(NeedMore)
    requires Outcome(g, peer, |before| + |chunks[0]|, chunks[1..], before + Flatten(chunks), c)
    ensures Outcome(g, peer, |before|, chunks, before + Flatten(chunks), c)
  {
    var stream := before + Flatten(chunks);
    var d := DecodeFrameStream(CAP, stream);
    if d.Ok? && d.value.Frame? {
      FrameEndsLater(before, Flatten(chunks));
      ReadEndsAtRest(|before|, chunks, |stream| - |d.value.remaining|);
    }
  }

  lemma DeliverUndecided(g: Gateway, peer: string, c: Connection, chunks: seq<seq<byte>>)
    requires c.phase.Reading? && chunks != []
    requires DecodeFrameStream(CAP, c.buffer + chunks[0]) == Ok(NeedMore)
    ensures Deliver(g, peer, c, chunks) == Deliver(g, peer, c.(buffer := c.buffer + chunks[0]), chunks[1..])
  {
  }

  lemma DeliverDecided(g: Gateway, peer: string, c: Connection, chunks: seq<seq<byte>>)
    requires c.phase.Reading? && chunks != []
    requires DecodeFrameStream(CAP, c.buffer + chunks[0]) != Ok(NeedMore)
    ensures Deliver(g, peer, c, chunks) == Receive(g, peer, c, chunks[0])
  {
    ReceiveStopsReading(g, peer, c, chunks[0]);
  }

  lemma {:induction false} DeliverFrom(g: Gateway, peer: string, c: Connection, chunks: seq<seq<byte>>,
                                       stream: seq<byte>)
    requires Waiting(c) && stream == c.buffer + Flatten(chunks)
    ensures Outcome(g, peer, |c.buffer|, chunks, stream, Deliver(g, peer, c, chunks))
    decreases |chunks|
  {
    if chunks == [] {
      assert stream == c.buffer;
    } else if DecodeFrameStream(CAP, c.buffer + chunks[0]) == Ok(NeedMore) {
      var next := c.(buffer := c.buffer + chunks[0]);
      assert next.buffer + Flatten(chunks[1..]) == stream;
      DeliverFrom(g, peer, next, chunks[1..], stream);
      DeliverUndecided(g, peer, c, chunks);
      UndecidingRead(g, peer, c.buffer, chunks, Deliver(g, peer, c, chunks));
    } else {
      DecidingRead(g, peer, c, chunks, stream);
      DeliverDecided(g, peer, c, chunks);
    }
  }

  /** An empty read is the end of the stream, so the reads that carry data are not empty. */
  predicate AreReads(chunks: seq<seq<byte>>) {
    forall i :: 0 <= i < |chunks| ==> chunks[i] != []
  }

  /**
   * The chunking theorem: whatever the byte stream and however it is cut into reads, a bad header is answered
   * with one NACK, an incomplete frame with nothing, and a complete frame is processed exactly when it is a
   * SIGNED_BUNDLE and some read ends at its last byte; otherwise it too gets one NACK MALFORMED.
   */
  lemma Chunking(g: Gateway, peer: string, chunks: seq<seq<byte>>)
    requires AreReads(chunks)
    ensures Outcome(g, peer, 0, chunks, Flatten(chunks), Deliver(g, peer, START, chunks))
  {
    assert START.buffer + Flatten(chunks) == Flatten(chunks);
    DeliverFrom(g, peer, START, chunks, Flatten(chunks));
  }
}
