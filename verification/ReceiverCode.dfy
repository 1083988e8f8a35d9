/**
 * `handle_connection` and `process_transaction` in their own form: a read loop over a growing buffer and nested
 * exception handlers. The methods are proved to do exactly what the machine of module Handler does when the
 * awaited operations answer as scripted (`ServeIsRun`, `ServedChunking`), so what is proved of its runs holds of
 * the code.
 */
module ReceiverCode {
  import opened Basics
  import opened FrameCodec
  import opened Responses
  import opened Gates
  import opened Envelope
  import opened Handler
  import opened HandlerProperties
  import InboundPep

  // ----- The machine under a script -----

  /** Drains succeed or raise as `drains` says, and succeed once it is exhausted. */
  function Settle(c: Connection, drains: seq<bool>): Connection
    decreases |drains|
  {
    if !c.phase.Draining? then c
    else if drains == [] || drains[0] then AfterDrain(c)
    else Settle(AfterDrainRaised(c), drains[1..])
  }

  function Conclude(c: Connection, accepts: bool, drains: seq<bool>): Connection {
    if c.phase.Ingesting? then Settle(AfterIngest(c, accepts), drains) else Settle(c, drains)
  }

  datatype ReadResult = Chunk(data: seq<byte>) | ReadRaised

  function AsInput(r: ReadResult): Input {
    match r
    case Chunk(data) => if data == [] then Eof else Data(data)
    case ReadRaised => ReadFailed
  }

  /** The peer closes the stream when the scripted arrivals are used up. */
  function Serve(g: Gateway, peer: string, c: Connection, arrivals: seq<ReadResult>, accepts: bool,
                 drains: seq<bool>): Connection
    decreases |arrivals|
  {
    if !c.phase.Reading? then Conclude(c, accepts, drains)
    else if arrivals == [] then c.(phase := Closed)
    else Serve(g, peer, Step(g, peer, c, AsInput(arrivals[0])), arrivals[1..], accepts, drains)
  }

  lemma {:induction false} SettleIsRun(g: Gateway, peer: string, past: seq<Input>, drains: seq<bool>)
    returns (inputs: seq<Input>)
    ensures Run(g, peer, inputs) == Settle(Run(g, peer, past), drains)
    decreases |drains|
  {
    var c := Run(g, peer, past);
    if !c.phase.Draining? {
      inputs := past;
    } else if drains == [] || drains[0] {
      inputs := past + [DrainReturned];
      assert inputs[..|past|] == past;
    } else {
      assert (past + [DrainRaised])[..|past|] == past;
      inputs := SettleIsRun(g, peer, past + [DrainRaised], drains[1..]);
    }
  }

  /** A served connection is a run of the machine, so it has every property proved of runs. */
  lemma {:induction false} ServeIsRun(g: Gateway, peer: string, past: seq<Input>, arrivals: seq<ReadResult>,
                                      accepts: bool, drains: seq<bool>)
    returns (inputs: seq<Input>)
    ensures Run(g, peer, inputs) == Serve(g, peer, Run(g, peer, past), arrivals, accepts, drains)
    decreases |arrivals|
  {
    var c := Run(g, peer, past);
    if c.phase.Ingesting? {
      assert (past + [IngestReturned(accepts)])[..|past|] == past;
      inputs := SettleIsRun(g, peer, past + [IngestReturned(accepts)], drains);
    } else if !c.phase.Reading? {
      inputs := SettleIsRun(g, peer, past, drains);
    } else if arrivals == [] {
      inputs := past + [Eof];
      assert inputs[..|past|] == past;
    } else {
      var next := past + [AsInput(arrivals[0])];
      assert next[..|past|] == past;
      inputs := ServeIsRun(g, peer, next, arrivals[1..], accepts, drains);
    }
  }

  /**
   * The answers when every drain fails, if the id fits: a response sent inside an inner `try` is followed by two
   * MALFORMED ones, inside the outer `try` by one, and from an exception handler by none.
   */
  lemma AllDrainsFail(c: Connection, id: string, r: Response)
    requires Fits(r) && Fits(NackOf(id, Malformed))
    ensures var nack := NackOf(id, Malformed);
            && Settle(Send(c, id, InnerGuard, r), [false, false, false]).writes == c.writes + [r] + [nack] + [nack]
            && Settle(Send(c, id, TransactionGuard, r), [false, false]).writes == c.writes + [r] + [nack]
            && Settle(Send(c, id, FrameGuard, r), [false]).writes == c.writes + [r]
            && Settle(Send(c, id, Unguarded, r), [false]).writes == c.writes + [r]
  {
    var inner := AfterDrainRaised(Send(c, id, InnerGuard, r));
    var outer := AfterDrainRaised(inner);
    var closed := AfterDrainRaised(outer);
    assert [false, false, false][1..] == [false, false] && [false, false][1..] == [false] && [false][1..] == [];
    assert Settle(inner, [false, false]) == Settle(outer, [false]) == Settle(closed, []) == closed;
    var second := AfterDrainRaised(Send(c, id, TransactionGuard, r));
    assert Settle(second, [false]) == Settle(AfterDrainRaised(second), []);
  }

  // ----- Chunking, for a served connection -----

  function Reads(chunks: seq<seq<byte>>): seq<ReadResult> {
    seq(|chunks|, i requires 0 <= i < |chunks| => Chunk(chunks[i]))
  }

  /** The stream ends here: nothing more is scripted, or a read is empty or raises. */
  predicate Ends(rest: seq<ReadResult>) {
    rest == [] || !AsInput(rest[0]).Data?
  }

  function Answer(d: Connection, accepts: bool, drains: seq<bool>): Connection {
    if d.phase.Reading? then d.(phase := Closed) else Conclude(d, accepts, drains)
  }

  /** Serving a connection is delivering its reads and then answering. */
  lemma {:induction false} ServeDelivers(g: Gateway, peer: string, c: Connection, chunks: seq<seq<byte>>,
                                         rest: seq<ReadResult>, accepts: bool, drains: seq<bool>)
    requires AreReads(chunks) && Ends(rest)
    ensures Serve(g, peer, c, Reads(chunks) + rest, accepts, drains) ==
            Answer(Deliver(g, peer, c, chunks), accepts, drains)
    decreases |chunks|
  {
    var arrivals := Reads(chunks) + rest;
    if chunks == [] {
      assert arrivals == rest;
    } else if c.phase.Reading? {
      assert arrivals[0] == Chunk(chunks[0]) && arrivals[1..] == Reads(chunks[1..]) + rest;
      ServeDelivers(g, peer, Step(g, peer, c, Data(chunks[0])), chunks[1..], rest, accepts, drains);
    }
  }

  /** Every script is some reads with data, then the end. */
  lemma {:induction false} ArrivalsSplit(arrivals: seq<ReadResult>)
    returns (chunks: seq<seq<byte>>, rest: seq<ReadResult>)
    ensures arrivals == Reads(chunks) + rest && AreReads(chunks) && Ends(rest)
    decreases |arrivals|
  {
    if Ends(arrivals) {
      chunks, rest := [], arrivals;
    } else {
      var later;
      later, rest := ArrivalsSplit(arrivals[1..]);
      chunks := [arrivals[0].data] + later;
      assert Reads(chunks) == [arrivals[0]] + Reads(later);
    }
  }

  ghost predicate NackedOnce(c: Connection) {
    c.writes == [NackOf("0", Malformed)] && c.payload.None? && c.trace == [Wrote(NackOf("0", Malformed))]
  }

  /** What a served connection comes to, from the bytes that arrived and the places where reads end. */
  ghost predicate ServedAs(g: Gateway, peer: string, chunks: seq<seq<byte>>, accepts: bool, drains: seq<bool>,
                           c: Connection) {
    var stream := Flatten(chunks);
    match DecodeFrameStream(CAP, stream)
    case Err(_) => NackedOnce(c)
    case Ok(NeedMore) => c == START.(buffer := stream, phase := Closed)
    case Ok(Frame(msgType, payload, remaining)) =>
      var n: nat := |stream| - |remaining|;
      if msgType.SignedBundle? && ReadEndsAt(0, chunks, n)
      then c == Conclude(Process(g, peer, START.(buffer := stream[..n]), payload), accepts, drains)
      else NackedOnce(c)
  }

  lemma UnreadStaysSingle(d: Connection, accepts: bool, drains: seq<bool>)
    requires NackedUnread(d)
    ensures var c := Conclude(d, accepts, drains);
            NackedOnce(c)
  {
    if drains != [] && !drains[0] {
      var closed := AfterDrainRaised(d);
      assert Settle(closed, drains[1..]) == closed;
    }
  }

  lemma OutcomeIsServed(g: Gateway, peer: string, chunks: seq<seq<byte>>, d: Connection, accepts: bool,
                        drains: seq<bool>)
    requires Outcome(g, peer, 0, chunks, Flatten(chunks), d)
    ensures ServedAs(g, peer, chunks, accepts, drains, Answer(d, accepts, drains))
  {
    if NackedUnread(d) {
      UnreadStaysSingle(d, accepts, drains);
    }
    var decoded := DecodeFrameStream(CAP, Flatten(chunks));
    if decoded.Ok? && decoded.value.Frame? {
      var frame := Flatten(chunks)[..|Flatten(chunks)| - |decoded.value.remaining|];
      ProcessBuffer(g, peer, START.(buffer := frame), decoded.value.payload);
    }
  }

  /**
   * Chunking of the code: however the arrivals are scripted, empty and raising reads, the ingestor's answer and
   * failing drains included, the connection comes to what the chunking theorem says of the reads before the end.
   */
  lemma ServedChunking(g: Gateway, peer: string, arrivals: seq<ReadResult>, accepts: bool, drains: seq<bool>)
    returns (chunks: seq<seq<byte>>, rest: seq<ReadResult>)
    ensures arrivals == Reads(chunks) + rest && AreReads(chunks) && Ends(rest)
    ensures ServedAs(g, peer, chunks, accepts, drains, Serve(g, peer, START, arrivals, accepts, drains))
  {
    chunks, rest := ArrivalsSplit(arrivals);
    Chunking(g, peer, chunks);
    ServeDelivers(g, peer, START, chunks, rest, accepts, drains);
    OutcomeIsServed(g, peer, chunks, Deliver(g, peer, START, chunks), accepts, drains);
  }

  // ----- Sending in direct style -----

  datatype Raised = Nothing | FrameException | OtherException

  /** The connection after a send, the drains left, and what was raised. */
  datatype Pending = Pending(c: Connection, drains: seq<bool>, raised: Raised)

  function Direct(c: Connection, r: Response, drains: seq<bool>): Pending {
    if !Fits(r) then Pending(c, drains, FrameException)
    else
      var sent := c.(writes := c.writes + [r], trace := c.trace + [Wrote(r)]);
      if drains == [] then Pending(sent, [], Nothing)
      else if drains[0] then Pending(sent, drains[1..], Nothing)
      else Pending(sent.(failures := c.failures + 1), drains[1..], OtherException)
  }

  /** What the machine still does after a direct-style send under `guard`. */
  function Resume(p: Pending, id: string, guard: Guard): Connection {
    match p.raised
    case Nothing => p.c.(phase := Closed)
    case FrameException => Settle(Raise(p.c, id, guard, true), p.drains)
    case OtherException => Settle(Raise(p.c, id, guard, false), p.drains)
  }

  lemma RaiseIgnoresPhase(c: Connection, phase: Phase, id: string, guard: Guard, frameError: bool)
    ensures Raise(c.(phase := phase), id, guard, frameError) == Raise(c, id, guard, frameError)
    decreases Depth(guard)
  {
    match guard
    case InnerGuard => RaiseIgnoresPhase(c, phase, id, TransactionGuard, true);
    case TransactionGuard => RaiseIgnoresPhase(c, phase, id, FrameGuard, true);
    case FrameGuard => RaiseIgnoresPhase(c, phase, "0", Unguarded, true);
    case Unguarded =>
  }

  lemma SettleOnce(c: Connection, drains: seq<bool>)
    requires c.phase.Draining?
    ensures Settle(c, drains) ==
            if drains == [] || drains[0] then AfterDrain(c) else Settle(AfterDrainRaised(c), drains[1..])
  {
  }

  /** Draining a response that was written, seen from the code and from the machine. */
  lemma DrainSettles(c: Connection, id: string, guard: Guard, r: Response, drains: seq<bool>)
    requires Fits(r)
    ensures var p := Direct(c, r, drains);
            var written := p.c.(failures := c.failures, phase := Draining(id, guard, r));
            Settle(written, drains) == if p.raised.Nothing? then AfterDrain(written) else Resume(p, id, guard)
  {
    var p := Direct(c, r, drains);
    var written := p.c.(failures := c.failures, phase := Draining(id, guard, r));
    SettleOnce(written, drains);
    if drains != [] && !drains[0] {
      RaiseIgnoresPhase(p.c, Draining(id, guard, r), id, guard, false);
      assert AfterDrainRaised(written) == Raise(p.c, id, guard, false);
    }
  }

  lemma SendWrites(c: Connection, id: string, guard: Guard, r: Response)
    ensures Send(c, id, guard, r) ==
            if Fits(r) then c.(phase := Draining(id, guard, r), writes := c.writes + [r], trace := c.trace + [Wrote(r)])
            else Raise(c, id, guard, true)
  {
  }

  lemma NackSettles(c: Connection, id: string, guard: Guard, r: Response, drains: seq<bool>)
    requires r.NackOf?
    ensures Settle(Send(c, id, guard, r), drains) == Resume(Direct(c, r, drains), id, guard)
  {
    SendWrites(c, id, guard, r);
    if Fits(r) {
      DrainSettles(c, id, guard, r, drains);
    }
  }

  lemma AckSettles(c: Connection, id: string, drains: seq<bool>)
    ensures var p := Direct(c, AckOf(id), drains);
            Settle(Send(c, id, TransactionGuard, AckOf(id)), drains) ==
            if p.raised.Nothing? then p.c.(phase := Closed, trace := p.c.trace + [Logged(id)])
            else Resume(p, id, TransactionGuard)
  {
    SendWrites(c, id, TransactionGuard, AckOf(id));
    if Fits(AckOf(id)) {
      DrainSettles(c, id, TransactionGuard, AckOf(id), drains);
    }
  }

  lemma RaiseNacks(c: Connection, id: string, guard: Guard, frameError: bool)
    requires guard in {InnerGuard, TransactionGuard}
    ensures Raise(c, id, guard, frameError) ==
            Send(c, id, if guard.InnerGuard? then TransactionGuard else FrameGuard, NackOf(id, Malformed))
  {
  }

  // ----- The code -----

  /** The stream reader and writer of one connection, what its awaited operations will answer, and its history. */
  class Session {
    var arrivals: seq<ReadResult>
    var drains: seq<bool>
    const accepts: bool
    var writes: seq<Response>
    var trace: seq<Event>

    ghost predicate Mirrors(c: Connection)
      reads this
    {
      writes == c.writes && trace == c.trace
    }

    constructor (arrivals: seq<ReadResult>, accepts: bool, drains: seq<bool>)
      ensures this.arrivals == arrivals && this.accepts == accepts && this.drains == drains
      ensures Mirrors(START)
    {
      this.arrivals, this.accepts, this.drains := arrivals, accepts, drains;
      writes, trace := [], [];
    }

    method Read() returns (r: ReadResult)
      modifies this`arrivals
      ensures old(arrivals) == [] ==> r == Chunk([]) && arrivals == []
      ensures old(arrivals) != [] ==> r == old(arrivals)[0] && arrivals == old(arrivals)[1..]
    {
      if arrivals == [] {
        return Chunk([]);
      }
      r := arrivals[0];
      arrivals := arrivals[1..];
    }

    method Drain() returns (raised: Raised)
      modifies this`drains
      ensures drains == if old(drains) == [] then [] else old(drains)[1..]
      ensures raised == if old(drains) == [] || old(drains)[0] then Nothing else OtherException
    {
      if drains == [] {
        return Nothing;
      }
      raised := if drains[0] then Nothing else OtherException;
      drains := drains[1..];
    }

    method SendNack(id: string, reason: NackReason, ghost c: Connection) returns (raised: Raised)
      requires Mirrors(c)
      modifies this`drains, this`writes, this`trace
      ensures var p := Direct(c, NackOf(id, reason), old(drains));
              Mirrors(p.c) && drains == p.drains && raised == p.raised
    {
      var r := NackOf(id, reason);
      if !Fits(r) {
        return FrameException;
      }
      writes, trace := writes + [r], trace + [Wrote(r)];
      raised := Drain();
    }

    method SendAck(id: string, ghost c: Connection) returns (raised: Raised)
      requires Mirrors(c)
      modifies this`drains, this`writes, this`trace
      ensures var p := Direct(c, AckOf(id), old(drains));
              Mirrors(p.c) && drains == p.drains && raised == p.raised
    {
      var r := AckOf(id);
      if !Fits(r) {
        return FrameException;
      }
      writes, trace := writes + [r], trace + [Wrote(r)];
      raised := Drain();
    }
  }

  /** The machine, having reached `whole`, does what is left to do after the code returned in state `c`. */
  ghost predicate Explains(whole: Connection, c: Connection, drains: seq<bool>, raised: Raised, id: string,
                           guard: Guard) {
    whole == if raised.Nothing? then whole.(writes := c.writes, trace := c.trace)
             else Resume(Pending(c, drains, raised), id, guard)
  }

  /** A refusal: one NACK, under the outer `try` only. */
  method Refusal(s: Session, id: string, reason: NackReason, ghost c: Connection)
    returns (raised: Raised, ghost c': Connection)
    requires s.Mirrors(c)
    modifies s`drains, s`writes, s`trace
    ensures s.Mirrors(c')
    ensures Explains(Settle(Send(c, id, TransactionGuard, NackOf(id, reason)), old(s.drains)),
                     c', s.drains, raised, id, TransactionGuard)
  {
    NackSettles(c, id, TransactionGuard, NackOf(id, reason), s.drains);
    c' := Direct(c, NackOf(id, reason), s.drains).c;
    raised := s.SendNack(id, reason, c);
  }

  /** A refusal inside an inner `try`, whose handler sends MALFORMED once more if the first NACK raised. */
  method InnerRefusal(s: Session, id: string, ghost c: Connection) returns (raised: Raised, ghost c': Connection)
    requires s.Mirrors(c)
    modifies s`drains, s`writes, s`trace
    ensures s.Mirrors(c')
    ensures Explains(Settle(Send(c, id, InnerGuard, NackOf(id, Malformed)), old(s.drains)),
                     c', s.drains, raised, id, TransactionGuard)
  {
    NackSettles(c, id, InnerGuard, NackOf(id, Malformed), s.drains);
    ghost var p := Direct(c, NackOf(id, Malformed), s.drains);
    c' := p.c;
    raised := s.SendNack(id, Malformed, c);
    if !raised.Nothing? {
      RaiseNacks(p.c, id, InnerGuard, raised.FrameException?);
      raised, c' := Refusal(s, id, Malformed, p.c);
    }
  }

  /** What the machine makes of an examination. */
  function Judge(c: Connection, exam: Exam): Connection {
    var examined := c.(trace := c.trace + exam.trace);
    match exam.verdict
    case Refuse(reason, guard) => Send(examined, exam.id, guard, NackOf(exam.id, reason))
    case Admit(document) => examined.(phase := Ingesting(exam.id, document))
  }

  lemma SendLeavesIngesting(c: Connection, id: string, guard: Guard, r: Response, accepts: bool, drains: seq<bool>)
    ensures Conclude(Send(c, id, guard, r), accepts, drains) == Settle(Send(c, id, guard, r), drains)
  {
    SendAnswers(c, id, guard, r);
  }

  /** Steps 8 and 9: ingest, then ACK. */
  method Ingest(s: Session, id: string, document: StixDocument, ghost c: Connection)
    returns (raised: Raised, ghost c': Connection)
    requires s.Mirrors(c) && c.phase == Ingesting(id, document)
    modifies s`drains, s`writes, s`trace
    ensures s.Mirrors(c')
    ensures Explains(Conclude(c, s.accepts, old(s.drains)), c', s.drains, raised, id, TransactionGuard)
  {
    var ingested := s.accepts;
    s.trace := s.trace + [Ingested(document, ingested)];
    ghost var done := c.(ingest := Some(ingested), trace := c.trace + [Ingested(document, ingested)]);
    if !ingested {
      raised, c' := Refusal(s, id, IngestFailed, done);
      return;
    }
    AckSettles(done, id, s.drains);
    ghost var p := Direct(done, AckOf(id), s.drains);
    c' := p.c;
    raised := s.SendAck(id, done);
    if raised.Nothing? {
      s.trace := s.trace + [Logged(id)];
      c' := p.c.(trace := p.c.trace + [Logged(id)]);
    }
  }

  /** Steps 6 and 7: decompression and STIX validation. */
  method TryUnpack(s: Session, g: Gateway, e: TransactionEnvelope, ghost checked: seq<Event>, ghost c: Connection)
    returns (raised: Raised, ghost c': Connection)
    requires s.Mirrors(c.(trace := c.trace + checked))
    modifies s`drains, s`writes, s`trace
    ensures s.Mirrors(c')
    ensures Explains(Conclude(Judge(c, Unpack(g, e, checked)), s.accepts, old(s.drains)), c', s.drains, raised,
                     e.transactionId, TransactionGuard)
  {
    var id := e.transactionId;
    var plain := g.inflate(e.stixBundleCompressed);
    ghost var inflated := checked + [Inflated(e.stixBundleCompressed, plain.Some?)];
    s.trace := s.trace + [Inflated(e.stixBundleCompressed, plain.Some?)];
    ghost var examined := c.(trace := c.trace + inflated);
    assert examined.trace == c.trace + checked + [Inflated(e.stixBundleCompressed, plain.Some?)];
    SendLeavesIngesting(examined, id, TransactionGuard, NackOf(id, Malformed), s.accepts, s.drains);
    SendLeavesIngesting(examined, id, InnerGuard, NackOf(id, Malformed), s.accepts, s.drains);
    if plain.None? {
      raised, c' := Refusal(s, id, Malformed, examined);
      return;
    }
    var document := g.loadStix(plain.value);
    if document.None? {
      raised, c' := Refusal(s, id, Malformed, examined);
      return;
    }
    if document.value.kind != Some("bundle") || !document.value.hasObjects {
      raised, c' := InnerRefusal(s, id, examined);
      return;
    }
    raised, c' := Ingest(s, id, document.value, examined.(phase := Ingesting(id, document.value)));
  }

  /** Steps 4 and 5: signature and policy. */
  method TryAuthenticate(s: Session, g: Gateway, e: TransactionEnvelope, keyPath: string, ghost c: Connection)
    returns (raised: Raised, ghost c': Connection)
    requires s.Mirrors(c)
    modifies s`drains, s`writes, s`trace
    ensures s.Mirrors(c')
    ensures Explains(Conclude(Judge(c, Authenticate(g, e, keyPath)), s.accepts, old(s.drains)), c', s.drains, raised,
                     e.transactionId, TransactionGuard)
  {
    var id := e.transactionId;
    var isValid := g.verify(e.stixBundleCompressed, e.signature, keyPath);
    ghost var verified := [Verified(e.stixBundleCompressed, e.signature, isValid)];
    s.trace := s.trace + [Verified(e.stixBundleCompressed, e.signature, isValid)];
    if !isValid {
      ghost var examined := c.(trace := c.trace + verified);
      SendLeavesIngesting(examined, id, TransactionGuard, NackOf(id, SigInvalid), s.accepts, s.drains);
      raised, c' := Refusal(s, id, SigInvalid, examined);
      return;
    }
    var allowed := InboundPep.Evaluate(g.rules, e.senderId, e.recipientId, TlpText(e.tlpMarking)).ExplicitAllow?;
    ghost var checked := verified + [PolicyChecked(e.senderId, e.recipientId, TlpText(e.tlpMarking), allowed)];
    s.trace := s.trace + [PolicyChecked(e.senderId, e.recipientId, TlpText(e.tlpMarking), allowed)];
    ghost var examined := c.(trace := c.trace + checked);
    assert s.trace == examined.trace;
    if !allowed {
      SendLeavesIngesting(examined, id, TransactionGuard, NackOf(id, PolicyDenied), s.accepts, s.drains);
      raised, c' := Refusal(s, id, PolicyDenied, examined);
      return;
    }
    raised, c' := TryUnpack(s, g, e, checked, c);
  }

  /** An exception raised by a missing key, before anything was sent. */
  lemma KeyErrorNacks(c: Connection, id: string, accepts: bool, drains: seq<bool>)
    ensures Explains(Conclude(Send(c, id, FrameGuard, NackOf(id, Malformed)), accepts, drains), c, drains,
                     OtherException, id, TransactionGuard)
  {
    SendLeavesIngesting(c, id, FrameGuard, NackOf(id, Malformed), accepts, drains);
    RaiseNacks(c, id, TransactionGuard, false);
  }

  /** Step 3: who sent it, and is that identity still trusted. */
  method TryIdentify(s: Session, g: Gateway, peer: string, e: TransactionEnvelope, ghost c: Connection)
    returns (raised: Raised, ghost c': Connection)
    requires s.Mirrors(c)
    modifies s`drains, s`writes, s`trace
    ensures s.Mirrors(c')
    ensures Explains(Conclude(Judge(c, Identify(g, peer, e)), s.accepts, old(s.drains)), c', s.drains, raised,
                     e.transactionId, TransactionGuard)
  {
    var id := e.transactionId;
    assert c.(trace := c.trace + []) == c;
    KeyErrorNacks(c, id, s.accepts, s.drains);
    if e.senderId !in g.trust.agencies {
      SendLeavesIngesting(c, id, TransactionGuard, NackOf(id, UnknownSender), s.accepts, s.drains);
      raised, c' := Refusal(s, id, UnknownSender, c);
      return;
    }
    var agency := g.trust.agencies[e.senderId];
    if agency.tlsCertificateFingerprint.None? {
      return OtherException, c;
    }
    if agency.tlsCertificateFingerprint.value != peer {
      SendLeavesIngesting(c, id, TransactionGuard, NackOf(id, IdentityMismatch), s.accepts, s.drains);
      raised, c' := Refusal(s, id, IdentityMismatch, c);
      return;
    }
    SendLeavesIngesting(c, id, TransactionGuard, NackOf(id, RevokedCert), s.accepts, s.drains);
    if peer in g.trust.revoked {
      raised, c' := Refusal(s, id, RevokedCert, c);
      return;
    }
    if agency.payloadSigningPublicKeyFingerprint.None? {
      return OtherException, c;
    }
    if agency.payloadSigningPublicKeyFingerprint.value in g.trust.revoked {
      raised, c' := Refusal(s, id, RevokedCert, c);
      return;
    }
    if agency.payloadSigningPublicKeyPath.None? {
      return OtherException, c;
    }
    raised, c' := TryAuthenticate(s, g, e, agency.payloadSigningPublicKeyPath.value, c);
  }

  /** The body of the outer `try`, with the transaction id its handler will use. */
  method TryTransaction(s: Session, g: Gateway, peer: string, payload: seq<byte>, ghost c: Connection)
    returns (raised: Raised, id: string, ghost c': Connection)
    requires s.Mirrors(c)
    modifies s`drains, s`writes, s`trace
    ensures s.Mirrors(c')
    ensures Explains(Conclude(Judge(c, Examine(g, peer, payload)), s.accepts, old(s.drains)), c', s.drains, raised,
                     id, TransactionGuard)
  {
    id := "0";
    assert c.(trace := c.trace + []) == c;
    var decoded := FromBytes(payload);
    if decoded.Err? {
      SendLeavesIngesting(c, id, TransactionGuard, NackOf(id, Malformed), s.accepts, s.drains);
      raised, c' := Refusal(s, id, Malformed, c);
      return;
    }
    var e := decoded.value;
    id := e.transactionId;
    if id == "" || e.senderId == "" || e.signature == [] || e.stixBundleCompressed == [] {
      SendLeavesIngesting(c, id, InnerGuard, NackOf(id, Malformed), s.accepts, s.drains);
      raised, c' := InnerRefusal(s, id, c);
      return;
    }
    raised, c' := TryIdentify(s, g, peer, e, c);
  }

  lemma FrameGuardIgnoresId(p: Pending, id: string)
    ensures Resume(p, id, FrameGuard) == Resume(p, "0", FrameGuard)
  {
  }

  /** `process_transaction`: whatever escapes the outer `try` is answered MALFORMED. */
  method ProcessTransaction(s: Session, g: Gateway, peer: string, payload: seq<byte>, ghost c: Connection)
    returns (raised: Raised, ghost c': Connection)
    requires s.Mirrors(c)
    modifies s`drains, s`writes, s`trace
    ensures s.Mirrors(c')
    ensures Explains(Conclude(Process(g, peer, c, payload), s.accepts, old(s.drains)),
                     c', s.drains, raised, "0", FrameGuard)
  {
    var id;
    ghost var read := c.(payload := Some(payload));
    raised, id, c' := TryTransaction(s, g, peer, payload, read);
    if !raised.Nothing? {
      RaiseNacks(c', id, TransactionGuard, raised.FrameException?);
      NackSettles(c', id, FrameGuard, NackOf(id, Malformed), s.drains);
      ghost var p := Direct(c', NackOf(id, Malformed), s.drains);
      raised := s.SendNack(id, Malformed, c');
      c' := p.c;
      FrameGuardIgnoresId(p, id);
    }
  }

  lemma StopsReading(g: Gateway, peer: string, c: Connection, payload: seq<byte>)
    ensures !Process(g, peer, c, payload).phase.Reading?
  {
    var exam := Examine(g, peer, payload);
    if exam.verdict.Refuse? {
      SendAnswers(c.(payload := Some(payload), trace := c.trace + exam.trace), exam.id, exam.verdict.guard,
                  NackOf(exam.id, exam.verdict.reason));
    }
  }

  /** NACK "0" MALFORMED under a guard that lets any further failure close the connection. */
  method ReplyZero(s: Session, ghost guard: Guard, ghost c: Connection)
    requires s.Mirrors(c) && guard in {FrameGuard, Unguarded}
    modifies s`drains, s`writes, s`trace
    ensures s.Mirrors(Settle(Send(c, "0", guard, NACK_ZERO), old(s.drains)))
    ensures !Send(c, "0", guard, NACK_ZERO).phase.Reading?
    ensures !Send(c, "0", guard, NACK_ZERO).phase.Ingesting?
  {
    ShortIdsFit(NACK_ZERO);
    NackSettles(c, "0", guard, NACK_ZERO, s.drains);
    ghost var raised := Direct(c, NACK_ZERO, s.drains).raised;
    var r := s.SendNack("0", Malformed, c);
    assert raised.OtherException? || raised.Nothing?;
  }

  /**
   * `handle_connection`: read until a frame is complete, then answer it. What is written and everything done is
   * what the machine does, for every way the stream is cut, every answer of the ingestor and every drain failure.
   */
  method HandleConnection(s: Session, g: Gateway, peer: string)
    requires s.Mirrors(START)
    modifies s
    ensures s.Mirrors(Serve(g, peer, START, old(s.arrivals), s.accepts, old(s.drains)))
  {
    ghost var whole := Serve(g, peer, START, s.arrivals, s.accepts, s.drains);
    var buffer: seq<byte> := [];
    ShortIdsFit(NACK_ZERO);
    while true
      invariant s.Mirrors(START) && s.drains == old(s.drains)
      invariant DecodeFrameStream(CAP, buffer) == Ok(NeedMore)
      invariant whole == Serve(g, peer, START.(buffer := buffer), s.arrivals, s.accepts, s.drains)
      decreases |s.arrivals|
    {
      ghost var waiting := START.(buffer := buffer);
      ghost var more := s.arrivals != [];
      var data := s.Read();
      if data.ReadRaised? || data.data == [] {
        assert more ==> whole == Serve(g, peer, waiting.(phase := Closed), s.arrivals, s.accepts, s.drains);
        return;
      }
      buffer := buffer + data.data;
      ghost var read := START.(buffer := buffer);
      assert whole == Serve(g, peer, Receive(g, peer, waiting, data.data), s.arrivals, s.accepts, s.drains);
      match DecodeFrameStream(CAP, buffer)
      case Err(_) =>
        ReplyZero(s, Unguarded, read);
        return;
      case Ok(NeedMore) =>
      case Ok(Frame(msgType, payload, remaining)) =>
        if remaining != [] || msgType != SignedBundle {
          ReplyZero(s, FrameGuard, read);
          return;
        }
        ghost var before := s.drains;
        var raised; ghost var c';
        StopsReading(g, peer, read, payload);
        raised, c' := ProcessTransaction(s, g, peer, payload, read);
        assert whole == Conclude(Process(g, peer, read, payload), s.accepts, before);
        if raised.FrameException? {
          ReplyZero(s, Unguarded, c');
        }
        return;
    }
  }
}
