/**
 * Gateway B's connection handler as a machine that moves from one `await` to the next. An input is what the
 * awaited operation produced; between two inputs the handler runs without interruption.
 */
module Handler {
  import opened Basics
  import opened FrameCodec
  import opened Responses
  import opened Gates

  const READ_SIZE := 4096

  datatype Phase =
    | Reading
    | Ingesting(id: string, document: StixDocument)
    | Draining(id: string, guard: Guard, response: Response)
    | Closed

  /**
   * `payload` is the accepted frame's payload, `ingest` what the ingestor returned, `writes` what was handed to
   * the transport, `failures` how often `drain` raised and `trace` everything the handler did.
   */
  datatype Connection = Connection(
    phase: Phase, buffer: seq<byte>, payload: Option<seq<byte>>, ingest: Option<bool>,
    writes: seq<Response>, failures: nat, trace: seq<Event>)

  datatype Input =
    | Data(chunk: seq<byte>) | Eof | ReadFailed
    | IngestReturned(accepted: bool)
    | DrainReturned | DrainRaised

  const START := Connection(Reading, [], None, None, [], 0, [])

  function Depth(guard: Guard): nat {
    match guard
    case InnerGuard => 3
    case TransactionGuard => 2
    case FrameGuard => 1
    case Unguarded => 0
  }

  /** `send_ack` and `send_nack`: the frame is written, then the handler waits in `drain`. */
  function Send(c: Connection, id: string, guard: Guard, r: Response): Connection
    decreases Depth(guard), 1
  {
    if Fits(r) then
      c.(phase := Draining(id, guard, r), writes := c.writes + [r], trace := c.trace + [Wrote(r)])
    else Raise(c, id, guard, true)
  }

  /** An exception under `guard`; `frameError` tells an OversizedFrameError from a transport error. */
  function Raise(c: Connection, id: string, guard: Guard, frameError: bool): Connection
    decreases Depth(guard), 0
  {
    match guard
    case InnerGuard => Send(c, id, TransactionGuard, NackOf(id, Malformed))
    case TransactionGuard => Send(c, id, FrameGuard, NackOf(id, Malformed))
    case FrameGuard => if frameError then Send(c, "0", Unguarded, NACK_ZERO) else c.(phase := Closed)
    case Unguarded => c.(phase := Closed)
  }

  function Process(g: Gateway, peer: string, c: Connection, payload: seq<byte>): Connection {
    var exam := Examine(g, peer, payload);
    var examined := c.(payload := Some(payload), trace := c.trace + exam.trace);
    match exam.verdict
    case Refuse(reason, guard) => Send(examined, exam.id, guard, NackOf(exam.id, reason))
    case Admit(document) => examined.(phase := Ingesting(exam.id, document))
  }

  function Receive(g: Gateway, peer: string, c: Connection, chunk: seq<byte>): Connection {
    var read := c.(buffer := c.buffer + chunk);
    match DecodeFrameStream(CAP, read.buffer)
    case Err(_) => Send(read, "0", Unguarded, NACK_ZERO)
    case Ok(NeedMore) => read
    case Ok(Frame(msgType, payload, remaining)) =>
      if remaining != [] || !msgType.SignedBundle? then Send(read, "0", FrameGuard, NACK_ZERO)
      else Process(g, peer, read, payload)
  }

  function AfterIngest(c: Connection, accepted: bool): Connection
    requires c.phase.Ingesting?
  {
    var id := c.phase.id;
    var done := c.(ingest := Some(accepted), trace := c.trace + [Ingested(c.phase.document, accepted)]);
    Send(done, id, TransactionGuard, if accepted then AckOf(id) else NackOf(id, IngestFailed))
  }

  /** Telemetry is logged only after the ACK was drained. */
  function AfterDrain(c: Connection): Connection
    requires c.phase.Draining?
  {
    if c.phase.response.AckOf? then c.(phase := Closed, trace := c.trace + [Logged(c.phase.response.id)])
    else c.(phase := Closed)
  }

  function AfterDrainRaised(c: Connection): Connection
    requires c.phase.Draining?
  {
    Raise(c.(failures := c.failures + 1), c.phase.id, c.phase.guard, false)
  }

  /** Every step but the arrival of data. */
  function Proceed(c: Connection, input: Input): Connection {
    match (c.phase, input)
    case (Reading, Eof) => c.(phase := Closed)
    case (Reading, ReadFailed) => c.(phase := Closed)
    case (Ingesting(_, _), IngestReturned(accepted)) => AfterIngest(c, accepted)
    case (Draining(_, _, _), DrainReturned) => AfterDrain(c)
    case (Draining(_, _, _), DrainRaised) => AfterDrainRaised(c)
    case _ => c
  }

  /** Inputs that do not answer the pending `await` change nothing. */
  function Step(g: Gateway, peer: string, c: Connection, input: Input): Connection {
    if c.phase.Reading? && input.Data? then Receive(g, peer, c, input.chunk)
    else Proceed(c, input)
  }

  function Run(g: Gateway, peer: string, inputs: seq<Input>): Connection {
    if inputs == [] then START
    else
      var last := |inputs| - 1;
      Step(g, peer, Run(g, peer, inputs[..last]), inputs[last])
  }

  // ----- What every reachable connection looks like -----

  function Written(rs: seq<Response>): seq<Event> {
    seq(|rs|, i requires 0 <= i < |rs| => Wrote(rs[i]))
  }

  /** The answers to a transaction refused for `reason`: that NACK, and after a failed drain MALFORMED ones. */
  ghost predicate RefusalWrites(id: string, reason: NackReason, ws: seq<Response>) {
    && |ws| >= 1
    && (Fits(NackOf(id, reason)) ==> ws[0] == NackOf(id, reason))
    && forall i :: 0 <= i < |ws| ==> ws[i] in {NackOf(id, reason), NackOf(id, Malformed), NACK_ZERO}
  }

  /** The answers to an ingested transaction: the ACK if it fits, and it alone unless a drain fails. */
  ghost predicate AcceptWrites(id: string, ws: seq<Response>) {
    && |ws| >= 1
    && (Fits(AckOf(id)) ==> ws[0] == AckOf(id))
    && (ws[0].AckOf? ==> Fits(AckOf(id)))
    && (forall i :: 0 <= i < |ws| && ws[i].AckOf? ==> i == 0 && ws[i] == AckOf(id))
    && forall i :: 0 <= i < |ws| && ws[i].NackOf? ==> ws[i] in {NackOf(id, Malformed), NACK_ZERO}
  }

  /** The buffer holds a frame that the read loop turns away without processing. */
  predicate TurnedAway(buffer: seq<byte>) {
    match DecodeFrameStream(CAP, buffer)
    case Err(_) => true
    case Ok(NeedMore) => false
    case Ok(Frame(t, _, rest)) => rest != [] || !t.SignedBundle?
  }

  ghost predicate WritesAndFailures(c: Connection) {
    && c.failures <= |c.writes| <= c.failures + 1
    && (c.phase.Draining? ==> |c.writes| == c.failures + 1 && c.writes[|c.writes| - 1] == c.phase.response)
    && (forall i :: 0 <= i < |c.writes| ==> Fits(c.writes[i]))
  }

  ghost predicate InvNoPayload(c: Connection) {
    c.ingest.None? &&
    match c.phase
    case Reading =>
      c.trace == [] && c.writes == [] && c.failures == 0 && DecodeFrameStream(CAP, c.buffer) == Ok(NeedMore)
    case Ingesting(_, _) => false
    case Draining(_, guard, _) =>
      && c.writes == [NACK_ZERO] && c.trace == [Wrote(NACK_ZERO)]
      && guard in {FrameGuard, Unguarded} && TurnedAway(c.buffer)
    case Closed =>
      || (c.writes == [] && c.trace == [] && DecodeFrameStream(CAP, c.buffer) == Ok(NeedMore))
      || (c.writes == [NACK_ZERO] && c.trace == [Wrote(NACK_ZERO)] && TurnedAway(c.buffer))
  }

  ghost predicate InvRefused(exam: Exam, c: Connection)
    requires exam.verdict.Refuse?
  {
    && c.ingest.None?
    && (c.phase.Draining? || c.phase.Closed?)
    && RefusalWrites(exam.id, exam.verdict.reason, c.writes)
    && c.trace == exam.trace + Written(c.writes)
    && (c.phase.Draining? ==> c.phase.response.NackOf?)
  }

  /** The handler ended after an ACK whose `drain` returned. */
  predicate AckDrained(c: Connection) {
    c.phase.Closed? && c.failures == 0 && |c.writes| == 1 && c.writes[0].AckOf?
  }

  ghost predicate InvIngested(exam: Exam, c: Connection, accepted: bool)
    requires exam.verdict.Admit?
  {
    var before := exam.trace + [Ingested(exam.verdict.document, accepted)];
    && (c.phase.Draining? || c.phase.Closed?)
    && (accepted ==> AcceptWrites(exam.id, c.writes))
    && (!accepted ==> RefusalWrites(exam.id, IngestFailed, c.writes))
    && c.trace == before + Written(c.writes) + (if AckDrained(c) then [Logged(exam.id)] else [])
    && (c.phase.Draining? && c.phase.response.AckOf? ==> |c.writes| == 1)
  }

  ghost predicate InvExamined(exam: Exam, c: Connection) {
    && (c.phase.Draining? && Depth(c.phase.guard) >= 2 ==> c.phase.id == exam.id)
    && match exam.verdict
       case Refuse(_, _) => InvRefused(exam, c)
       case Admit(document) =>
         match c.ingest
         case None =>
           c.phase == Ingesting(exam.id, document) && c.trace == exam.trace && c.writes == [] && c.failures == 0
         case Some(accepted) => InvIngested(exam, c, accepted)
  }

  ghost predicate Inv(g: Gateway, peer: string, c: Connection) {
    && WritesAndFailures(c)
    && match c.payload
       case None => InvNoPayload(c)
       case Some(payload) =>
         && DecodeFrame(CAP, c.buffer) == Ok(Message(SignedBundle, payload))
         && InvExamined(Examine(g, peer, payload), c)
  }

  lemma WrittenAppend(ws: seq<Response>, r: Response)
    ensures Written(ws + [r]) == Written(ws) + [Wrote(r)]
  {
  }

  /** A send or a raise adds at most one response; it adds none only when it closes the connection. */
  ghost predicate Answered(c: Connection, c': Connection, id: string, guard: Guard) {
    && c' == c.(phase := c'.phase, writes := c'.writes, trace := c'.trace)
    && (|| (c'.phase.Closed? && c'.writes == c.writes && c'.trace == c.trace)
        || (&& c'.phase.Draining?
            && Fits(c'.phase.response)
            && c'.writes == c.writes + [c'.phase.response]
            && c'.trace == c.trace + [Wrote(c'.phase.response)]
            && Depth(c'.phase.guard) <= Depth(guard)
            && (Depth(c'.phase.guard) >= 2 ==> c'.phase.id == id)))
  }

  lemma SendAnswers(c: Connection, id: string, guard: Guard, r: Response)
    ensures var c' := Send(c, id, guard, r);
            && Answered(c, c', id, guard)
            && (Fits(r) ==> c'.phase == Draining(id, guard, r))
            && (!Fits(r) && c'.phase.Draining? ==> c'.phase.response in {NackOf(id, Malformed), NACK_ZERO})
            && (guard != Unguarded ==> c'.phase.Draining?)
    decreases Depth(guard), 1
  {
    if !Fits(r) {
      RaiseAnswers(c, id, guard, true);
    }
  }

  lemma RaiseAnswers(c: Connection, id: string, guard: Guard, frameError: bool)
    ensures var c' := Raise(c, id, guard, frameError);
            && Answered(c, c', id, guard)
            && (c'.phase.Draining? ==> c'.phase.response in {NackOf(id, Malformed), NACK_ZERO})
            && (guard != Unguarded && (frameError || guard != FrameGuard) ==> c'.phase.Draining?)
    decreases Depth(guard), 0
  {
    ShortIdsFit(NACK_ZERO);
    match guard
    case InnerGuard => SendAnswers(c, id, TransactionGuard, NackOf(id, Malformed));
    case TransactionGuard => SendAnswers(c, id, FrameGuard, NackOf(id, Malformed));
    case FrameGuard =>
    case Unguarded =>
  }

  lemma RefusalIsExamined(exam: Exam, c: Connection)
    requires exam.verdict.Refuse? && exam.verdict.guard != Unguarded
    requires c.writes == [] && c.failures == 0 && c.ingest.None? && c.trace == exam.trace
    ensures var c' := Send(c, exam.id, exam.verdict.guard, NackOf(exam.id, exam.verdict.reason));
            && WritesAndFailures(c') && InvExamined(exam, c')
            && c'.payload == c.payload && c'.buffer == c.buffer
  {
    var r := NackOf(exam.id, exam.verdict.reason);
    SendAnswers(c, exam.id, exam.verdict.guard, r);
    var c' := Send(c, exam.id, exam.verdict.guard, r);
    assert c'.writes == [c'.phase.response];
    assert Written(c'.writes) == [Wrote(c'.phase.response)];
  }

  lemma GuardOfRefusal(g: Gateway, peer: string, payload: seq<byte>)
    ensures Examine(g, peer, payload).verdict.Refuse? ==> Examine(g, peer, payload).verdict.guard != Unguarded
  {
  }

  lemma ProcessKeepsInv(g: Gateway, peer: string, c: Connection, payload: seq<byte>)
    requires c.writes == [] && c.failures == 0 && c.ingest.None? && c.trace == []
    requires DecodeFrame(CAP, c.buffer) == Ok(Message(SignedBundle, payload))
    ensures Inv(g, peer, Process(g, peer, c, payload))
    ensures Process(g, peer, c, payload).payload == Some(payload)
    ensures Process(g, peer, c, payload).buffer == c.buffer
  {
    var exam := Examine(g, peer, payload);
    var examined := c.(payload := Some(payload), trace := c.trace + exam.trace);
    assert [] + exam.trace == exam.trace;
    if exam.verdict.Refuse? {
      GuardOfRefusal(g, peer, payload);
      RefusalIsExamined(exam, examined);
    }
  }

  lemma ReceiveKeepsInv(g: Gateway, peer: string, c: Connection, chunk: seq<byte>)
    requires Inv(g, peer, c) && c.phase.Reading?
    ensures Inv(g, peer, Receive(g, peer, c, chunk))
  {
    var read := c.(buffer := c.buffer + chunk);
    ShortIdsFit(NACK_ZERO);
    var d := DecodeFrameStream(CAP, read.buffer);
    if d.Ok? && d.value.Frame? && d.value.remaining == [] && d.value.msgType.SignedBundle? {
      ProcessKeepsInv(g, peer, read, d.value.payload);
    } else if d.Err? || d.value.Frame? {
      var c' := Receive(g, peer, c, chunk);
      assert c'.writes == [NACK_ZERO] && c'.trace == [Wrote(NACK_ZERO)];
    }
  }

  lemma SingleAcceptWrite(id: string, answer: Response)
    requires Fits(AckOf(id)) ==> answer == AckOf(id)
    requires !Fits(AckOf(id)) ==> answer in {NackOf(id, Malformed), NACK_ZERO}
    ensures AcceptWrites(id, [answer])
  {
  }

  lemma SingleRefusalWrite(id: string, reason: NackReason, answer: Response)
    requires Fits(NackOf(id, reason)) ==> answer == NackOf(id, reason)
    requires !Fits(NackOf(id, reason)) ==> answer in {NackOf(id, Malformed), NACK_ZERO}
    ensures RefusalWrites(id, reason, [answer])
  {
  }

  lemma AnswerToIngest(exam: Exam, done: Connection, r: Response, c': Connection, accepted: bool)
    requires exam.verdict.Admit? && done.ingest == Some(accepted) && done.writes == [] && done.failures == 0
    requires done.trace == exam.trace + [Ingested(exam.verdict.document, accepted)]
    requires r == if accepted then AckOf(exam.id) else NackOf(exam.id, IngestFailed)
    requires Answered(done, c', exam.id, TransactionGuard) && c'.phase.Draining?
    requires Fits(r) ==> c'.phase.response == r
    requires !Fits(r) ==> c'.phase.response in {NackOf(exam.id, Malformed), NACK_ZERO}
    ensures WritesAndFailures(c') && InvExamined(exam, c')
  {
    var answer := c'.phase.response;
    assert c'.writes == [answer];
    assert Written(c'.writes) == [Wrote(answer)];
    if accepted {
      SingleAcceptWrite(exam.id, answer);
    } else {
      SingleRefusalWrite(exam.id, IngestFailed, answer);
    }
    var before := exam.trace + [Ingested(exam.verdict.document, accepted)];
    assert c'.trace == before + Written(c'.writes) + [];
    assert InvIngested(exam, c', accepted);
  }

  lemma IngestKeepsInv(exam: Exam, c: Connection, accepted: bool)
    requires WritesAndFailures(c) && InvExamined(exam, c) && c.phase.Ingesting?
    ensures var c' := AfterIngest(c, accepted);
            WritesAndFailures(c') && InvExamined(exam, c') && c'.payload == c.payload && c'.buffer == c.buffer
  {
    var id := c.phase.id;
    var done := c.(ingest := Some(accepted), trace := c.trace + [Ingested(c.phase.document, accepted)]);
    var r := if accepted then AckOf(id) else NackOf(id, IngestFailed);
    SendAnswers(done, id, TransactionGuard, r);
    AnswerToIngest(exam, done, r, AfterIngest(c, accepted), accepted);
  }

  /** After a failed drain the connection is closed, or one more MALFORMED answer went out. */
  ghost predicate Apologized(id: string, c: Connection, c': Connection) {
    && c'.payload == c.payload && c'.buffer == c.buffer && c'.ingest == c.ingest && c'.failures == c.failures + 1
    && (|| (c'.phase.Closed? && c'.writes == c.writes && c'.trace == c.trace)
        || (&& c'.phase.Draining?
            && Fits(c'.phase.response)
            && c'.phase.response in {NackOf(id, Malformed), NACK_ZERO}
            && c'.writes == c.writes + [c'.phase.response]
            && c'.trace == c.trace + [Wrote(c'.phase.response)]
            && (Depth(c'.phase.guard) >= 2 ==> c'.phase.id == id)))
  }

  lemma DrainRaisedApologizes(id: string, c: Connection)
    requires c.phase.Draining? && (Depth(c.phase.guard) >= 2 ==> c.phase.id == id)
    ensures Apologized(id, c, AfterDrainRaised(c))
  {
    RaiseAnswers(c.(failures := c.failures + 1), c.phase.id, c.phase.guard, false);
  }

  lemma ApologyKeepsRefusal(exam: Exam, c: Connection, c': Connection)
    requires exam.verdict.Refuse? && InvRefused(exam, c)
    requires c.phase.Draining? && Apologized(exam.id, c, c')
    ensures InvRefused(exam, c')
  {
    if c'.phase.Draining? {
      WrittenAppend(c.writes, c'.phase.response);
      assert exam.trace + Written(c.writes) + [Wrote(c'.phase.response)] ==
             exam.trace + (Written(c.writes) + [Wrote(c'.phase.response)]);
    }
  }

  lemma ApologyKeepsIngest(exam: Exam, c: Connection, c': Connection, accepted: bool)
    requires exam.verdict.Admit? && InvIngested(exam, c, accepted)
    requires c.phase.Draining? && Apologized(exam.id, c, c')
    ensures InvIngested(exam, c', accepted)
  {
    var before := exam.trace + [Ingested(exam.verdict.document, accepted)];
    assert before + Written(c.writes) + [] == before + Written(c.writes);
    if c'.phase.Draining? {
      WrittenAppend(c.writes, c'.phase.response);
      assert before + Written(c.writes) + [Wrote(c'.phase.response)] ==
             before + (Written(c.writes) + [Wrote(c'.phase.response)]) + [];
    }
  }

  lemma DrainRaisedKeepsInv(exam: Exam, c: Connection)
    requires WritesAndFailures(c) && InvExamined(exam, c) && c.phase.Draining?
    ensures var c' := AfterDrainRaised(c);
            WritesAndFailures(c') && InvExamined(exam, c') && c'.payload == c.payload && c'.buffer == c.buffer
  {
    DrainRaisedApologizes(exam.id, c);
    var c' := AfterDrainRaised(c);
    if exam.verdict.Refuse? {
      ApologyKeepsRefusal(exam, c, c');
    } else {
      ApologyKeepsIngest(exam, c, c', c.ingest.value);
    }
  }

  lemma DrainedIsLogged(exam: Exam, c: Connection, accepted: bool)
    requires exam.verdict.Admit? && WritesAndFailures(c) && InvIngested(exam, c, accepted) && c.phase.Draining?
    ensures InvIngested(exam, AfterDrain(c), accepted)
  {
    var traced := exam.trace + [Ingested(exam.verdict.document, accepted)] + Written(c.writes);
    assert traced + [] == traced;
  }

  lemma DrainReturnedKeepsInv(exam: Exam, c: Connection)
    requires WritesAndFailures(c) && InvExamined(exam, c) && c.phase.Draining?
    ensures var c' := AfterDrain(c);
            WritesAndFailures(c') && InvExamined(exam, c') && c'.payload == c.payload && c'.buffer == c.buffer
  {
    if exam.verdict.Admit? {
      DrainedIsLogged(exam, c, c.ingest.value);
    }
  }

  lemma ProceedKeepsInv(exam: Exam, c: Connection, input: Input)
    requires WritesAndFailures(c) && InvExamined(exam, c)
    ensures var c' := Proceed(c, input);
            WritesAndFailures(c') && InvExamined(exam, c') && c'.payload == c.payload && c'.buffer == c.buffer
  {
    if c.phase.Ingesting? && input.IngestReturned? {
      IngestKeepsInv(exam, c, input.accepted);
    } else if c.phase.Draining? && input.DrainReturned? {
      DrainReturnedKeepsInv(exam, c);
    } else if c.phase.Draining? && input.DrainRaised? {
      DrainRaisedKeepsInv(exam, c);
    }
  }

  lemma ProceedWithoutPayload(c: Connection, input: Input)
    requires WritesAndFailures(c) && InvNoPayload(c) && c.payload.None? && !(c.phase.Reading? && input.Data?)
    ensures var c' := Proceed(c, input);
            WritesAndFailures(c') && InvNoPayload(c') && c'.payload.None? && c'.buffer == c.buffer
  {
  }

  lemma StepKeepsInv(g: Gateway, peer: string, c: Connection, input: Input)
    requires Inv(g, peer, c)
    ensures Inv(g, peer, Step(g, peer, c, input))
  {
    if c.phase.Reading? && input.Data? {
      ReceiveKeepsInv(g, peer, c, input.chunk);
    } else if c.payload.Some? {
      ProceedKeepsInv(Examine(g, peer, c.payload.value), c, input);
    } else {
      ProceedWithoutPayload(c, input);
    }
  }

  lemma {:induction false} RunKeepsInv(g: Gateway, peer: string, inputs: seq<Input>)
    ensures Inv(g, peer, Run(g, peer, inputs))
  {
    if inputs != [] {
      var last := |inputs| - 1;
      RunKeepsInv(g, peer, inputs[..last]);
      StepKeepsInv(g, peer, Run(g, peer, inputs[..last]), inputs[last]);
    }
  }
}
