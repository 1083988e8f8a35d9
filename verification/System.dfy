/**
 * The two gateways together: gateway A's pipeline, gateway B's concurrent handlers, and the connections between
 * them, which may stall, break or be cut at any byte. Every step is one await-to-await segment of one coroutine,
 * or something the network does.
 */
module System {
  import opened Basics
  import opened FrameCodec
  import opened Envelope
  import opened Responses
  import opened Gates
  import opened Handler
  import opened HandlerProperties
  import opened Exchange
  import opened DeadLetters
  import opened Transmission
  import InboundPep
  import OutboundPep
  import P = Pipeline
  import R = PipelineRuns

  datatype Net = Net(setup: P.Setup, gateway: Gateway, dumps: Dumps, loads: Loads, maxConcurrent: nat)

  /**
   * Whether the connection waits for the semaphore, holds one of its permits, or has given it back. The permit is
   * kept while the handler waits for the closed connection to wind down.
   */
  datatype Slot = Queued | Holding | Released

  /**
   * One connection to gateway B: who opened it (a transaction of A, as it was then, or a stranger), the peer
   * certificate, the bytes sent, how many of them B has read, and B's handler.
   */
  datatype Link = Link(
    owner: Option<Transaction>, peer: string, sent: seq<byte>, delivered: nat, slot: Slot, handler: Connection)

  /**
   * `current` is the link whose response A's transmission worker is waiting for, `permits` the counter of B's
   * semaphore.
   */
  datatype World = World(pipeline: P.State, links: seq<Link>, current: Option<nat>, permits: nat)

  function Initial(net: Net): World {
    World(P.INITIAL, [], None, net.maxConcurrent)
  }

  /**
   * `WriteFails` is any failure of `send_envelope` before a response is read, including an envelope that cannot be
   * serialized.
   */
  datatype Event =
    | Local(action: P.Action)
    | OpenLink(peer: string)
    | OpenForeign(peer: string, bytes: seq<byte>)
    | Acquire(k: nat)
    | Release(k: nat)
    | Arrive(k: nat, size: nat)
    | Proceeds(k: nat, input: Input)
    | ReadReply(size: nat, ending: Ending)
    | WriteFails(ending: Ending)

  function FrameBytes(dumps: Dumps, r: Response): seq<byte> {
    var frame := ReplyFrame(dumps, r);
    if frame.Ok? then frame.value else []
  }

  /** The bytes of a list of responses. */
  function Output(dumps: Dumps, ws: seq<Response>): seq<byte> {
    Flatten(seq(|ws|, i requires 0 <= i < |ws| => FrameBytes(dumps, ws[i])))
  }

  /** Links that hold a permit. */
  function Holders(links: seq<Link>): nat {
    if links == [] then 0 else Holders(links[..|links| - 1]) + if links[|links| - 1].slot.Holding? then 1 else 0
  }

  /** What A puts on a new connection: its frame, or nothing if the envelope cannot be serialized. */
  function BytesOf(tx: Transaction): seq<byte> {
    if FrameOf(tx).Some? then FrameOf(tx).value else []
  }

  predicate Enabled(net: Net, w: World, e: Event) {
    match e
    case Local(a) => P.Enabled(net.setup, w.pipeline, a) && !a.SessionOpens? && !a.SendReturns?
    case OpenLink(_) => P.Enabled(net.setup, w.pipeline, P.SessionOpens)
    case OpenForeign(_, _) => true
    case Acquire(k) => k < |w.links| && w.links[k].slot.Queued? && w.permits > 0
    case Release(k) => k < |w.links| && w.links[k].slot.Holding? && w.links[k].handler.phase.Closed?
    case Arrive(k, size) =>
      && k < |w.links| && w.links[k].slot.Holding? && w.links[k].handler.phase.Reading?
      && 1 <= size <= READ_SIZE && w.links[k].delivered + size <= |w.links[k].sent|
    case Proceeds(k, input) => k < |w.links| && w.links[k].slot.Holding? && !input.Data?
    case ReadReply(size, _) =>
      && w.current.Some? && w.current.value < |w.links|
      && w.pipeline.sender.Some? && w.pipeline.sender.value.stage.Waiting?
      && size <= |Output(net.dumps, w.links[w.current.value].handler.writes)|
    case WriteFails(_) => w.current.Some? && w.pipeline.sender.Some? && w.pipeline.sender.value.stage.Waiting?
  }

  /** A handler that waits for data can be given any 1 to 4096 of the bytes that have been sent, and no more. */
  lemma ReadSizes(net: Net, w: World, k: nat, size: nat)
    requires k < |w.links| && w.links[k].slot.Holding? && w.links[k].handler.phase.Reading?
    requires w.links[k].delivered + size <= |w.links[k].sent|
    ensures Enabled(net, w, Arrive(k, size)) <==> 1 <= size <= 4096
  {
  }

  /** What `send_envelope` returns when the response stream breaks off after `size` bytes. */
  function Reply(net: Net, w: World, size: nat, ending: Ending): SendResult
    requires Enabled(net, w, ReadReply(size, ending))
  {
    var output := Output(net.dumps, w.links[w.current.value].handler.writes);
    ReadResponse(net.loads, w.pipeline.sender.value.tx.id, output[..size], ending)
  }

  function StepLink(net: Net, l: Link, input: Input): Link {
    l.(handler := Handler.Step(net.gateway, l.peer, l.handler, input))
  }

  function Next(net: Net, w: World, e: Event): World
    requires Enabled(net, w, e)
  {
    match e
    case Local(a) => w.(pipeline := P.Apply(net.setup, w.pipeline, a))
    case OpenLink(peer) =>
      var tx := w.pipeline.sender.value.tx;
      w.(pipeline := P.Apply(net.setup, w.pipeline, P.SessionOpens),
         links := w.links + [Link(Some(tx), peer, BytesOf(tx), 0, Queued, START)], current := Some(|w.links|))
    case OpenForeign(peer, bytes) => w.(links := w.links + [Link(None, peer, bytes, 0, Queued, START)])
    case Acquire(k) => w.(links := w.links[k := w.links[k].(slot := Holding)], permits := w.permits - 1)
    case Release(k) => w.(links := w.links[k := w.links[k].(slot := Released)], permits := w.permits + 1)
    case Arrive(k, size) =>
      var l := w.links[k];
      var chunk := l.sent[l.delivered..l.delivered + size];
      w.(links := w.links[k := StepLink(net, l.(delivered := l.delivered + size), Data(chunk))])
    case Proceeds(k, input) => w.(links := w.links[k := StepLink(net, w.links[k], input)])
    case ReadReply(size, ending) =>
      w.(pipeline := P.Apply(net.setup, w.pipeline, P.SendReturns(Reply(net, w, size, ending))), current := None)
    case WriteFails(ending) =>
      w.(pipeline := P.Apply(net.setup, w.pipeline, P.SendReturns(EndingResult(ending))), current := None)
  }

  ghost predicate IsRun(net: Net, events: seq<Event>, worlds: seq<World>) {
    && |worlds| == |events| + 1 && worlds[0] == Initial(net)
    && forall i :: 0 <= i < |events| ==>
         Enabled(net, worlds[i], events[i]) && worlds[i + 1] == Next(net, worlds[i], events[i])
  }

  // ----- One link -----

  ghost predicate LinkInv(net: Net, l: Link) {
    && l.delivered <= |l.sent|
    && l.handler.buffer == l.sent[..l.delivered] && |l.handler.buffer| <= CAP + 4100
    && Handler.Inv(net.gateway, l.peer, l.handler)
    && (l.owner.Some? ==>
          && l.sent == BytesOf(l.owner.value)
          && P.Prepared(net.setup, l.owner.value) && P.Permitted(net.setup, l.owner.value))
  }

  /** A link whose handler has taken in what arrived. */
  lemma TakenIn(net: Net, l: Link, n: nat, c: Connection)
    requires LinkInv(net, l) && l.delivered <= n <= |l.sent|
    requires Handler.Inv(net.gateway, l.peer, c) && c.buffer == l.sent[..n] && |c.buffer| <= CAP + 4100
    ensures LinkInv(net, l.(delivered := n, handler := c))
  {
  }

  lemma Lengthened(sent: seq<byte>, from: nat, size: nat)
    requires from + size <= |sent|
    ensures sent[..from] + sent[from..from + size] == sent[..from + size]
  {
  }

  lemma StepTakesIn(net: Net, l: Link, input: Input)
    requires Handler.Inv(net.gateway, l.peer, l.handler) && l.handler.phase.Reading?
    requires input.Data? && |input.chunk| <= READ_SIZE
    ensures var c := Handler.Step(net.gateway, l.peer, l.handler, input);
            && Handler.Inv(net.gateway, l.peer, c)
            && c.buffer == l.handler.buffer + input.chunk && |c.buffer| <= CAP + 4100
  {
    StepKeepsInv(net.gateway, l.peer, l.handler, input);
    StepBuffer(net.gateway, l.peer, l.handler, input);
  }

  lemma ArriveKeepsLink(net: Net, l: Link, size: nat)
    requires LinkInv(net, l) && l.handler.phase.Reading? && size <= READ_SIZE && l.delivered + size <= |l.sent|
    ensures LinkInv(net, StepLink(net, l.(delivered := l.delivered + size),
                                  Data(l.sent[l.delivered..l.delivered + size])))
  {
    var input := Data(l.sent[l.delivered..l.delivered + size]);
    StepTakesIn(net, l, input);
    Lengthened(l.sent, l.delivered, size);
    TakenIn(net, l, l.delivered + size, Handler.Step(net.gateway, l.peer, l.handler, input));
  }

  lemma ProceedKeepsLink(net: Net, l: Link, input: Input)
    requires LinkInv(net, l) && !input.Data?
    ensures LinkInv(net, StepLink(net, l, input))
  {
    StepKeepsInv(net.gateway, l.peer, l.handler, input);
    StepBuffer(net.gateway, l.peer, l.handler, input);
  }

  lemma PrefixIsNoFrame(frame: seq<byte>, len: nat, n: nat, payload: seq<byte>)
    requires len < U32_LIMIT && |frame| == HEADER_SIZE + len && frame[1..HEADER_SIZE] == PackU32(len) && n <= |frame|
    requires DecodeFrame(CAP, frame[..n]) == Ok(Message(SignedBundle, payload))
    ensures frame[..n] == frame
  {
    UnpackPack(len);
    assert frame[..n][1..HEADER_SIZE] == frame[1..HEADER_SIZE];
  }

  /** No proper prefix of A's frame is itself a frame. */
  lemma PartIsWhole(tx: Transaction, n: nat, payload: seq<byte>)
    requires FrameOf(tx).Some? && n <= |FrameOf(tx).value|
    requires DecodeFrame(CAP, FrameOf(tx).value[..n]) == Ok(Message(SignedBundle, payload))
    ensures FrameOf(tx).value[..n] == FrameOf(tx).value
  {
    var sent := ToBytes(EnvelopeOf(tx)).value;
    PrefixIsNoFrame(FrameOf(tx).value, |sent|, n, payload);
  }

  /** B's decoding of what A sent is the envelope A built. */
  lemma OwnedPayload(net: Net, l: Link)
    requires LinkInv(net, l) && l.owner.Some? && l.handler.payload.Some?
    ensures FromBytes(l.handler.payload.value) == Ok(EnvelopeOf(l.owner.value))
    ensures Carries(EnvelopeOf(l.owner.value), l.owner.value)
  {
    var frame := l.sent;
    var part := l.sent[..l.delivered];
    assert DecodeFrame(CAP, part) == Ok(Message(SignedBundle, l.handler.payload.value));
    if FrameOf(l.owner.value).Some? {
      PartIsWhole(l.owner.value, l.delivered, l.handler.payload.value);
      assert part == frame;
      FrameCarriesEnvelope(CAP, l.owner.value, l.handler.payload.value);
    }
  }

  /** Handlers only add responses, and the ingestor's answer does not change. */
  ghost predicate Grows(c: Connection, c': Connection) {
    c.writes <= c'.writes && (c.ingest.Some? ==> c'.ingest == c.ingest) && (c.phase.Closed? ==> c'.phase.Closed?)
  }

  lemma ProceedGrows(c: Connection, input: Input)
    requires WritesAndFailures(c) && (c.phase.Ingesting? ==> c.ingest.None? && c.writes == [])
    ensures Grows(c, Proceed(c, input))
  {
    if c.phase.Draining? && input.DrainRaised? {
      RaiseAnswers(c.(failures := c.failures + 1), c.phase.id, c.phase.guard, false);
    }
  }

  lemma ReadingIsFresh(g: Gateway, peer: string, c: Connection)
    requires Handler.Inv(g, peer, c)
    ensures c.phase.Reading? ==> c.writes == [] && c.ingest.None?
    ensures c.phase.Ingesting? ==> c.writes == [] && c.ingest.None?
  {
  }

  lemma StepGrows(net: Net, peer: string, c: Connection, input: Input)
    requires Handler.Inv(net.gateway, peer, c)
    ensures Grows(c, Handler.Step(net.gateway, peer, c, input))
  {
    ReadingIsFresh(net.gateway, peer, c);
    if !(c.phase.Reading? && input.Data?) {
      ProceedGrows(c, input);
    }
  }

  // ----- The whole world -----

  predicate Owns(l: Link, id: string) {
    l.owner.Some? && l.owner.value.id == id
  }

  ghost predicate AllLinks(net: Net, links: seq<Link>) {
    forall l :: l in links ==> LinkInv(net, l)
  }

  ghost predicate CurrentLink(s: P.State, links: seq<Link>, current: Option<nat>) {
    && (current.Some? <==> s.sender.Some? && s.sender.value.stage.Waiting?)
    && (current.Some? ==> current.value < |links| && links[current.value].owner == Some(s.sender.value.tx))
  }

  /** The links of one transaction carry increasing attempt numbers within the limit. */
  ghost predicate Numbered(max: int, links: seq<Link>) {
    && (forall k :: 0 <= k < |links| && links[k].owner.Some? ==> 1 <= links[k].owner.value.retryCount <= max)
    && (forall j, k :: 0 <= j < k < |links| && links[j].owner.Some? && links[k].owner.Some?
                       && links[j].owner.value.id == links[k].owner.value.id ==>
                         links[j].owner.value.retryCount < links[k].owner.value.retryCount)
  }

  /** A link belongs to a transaction that is in transmission or finished, and to an attempt already counted. */
  ghost predicate Attributed(s: P.State, links: seq<Link>) {
    && (forall k :: 0 <= k < |links| && links[k].owner.Some? ==>
          links[k].owner.value.id in P.Ids(s.finished) + P.HeldId(s.sender))
    && (s.sender.Some? ==> forall k :: 0 <= k < |links| && Owns(links[k], s.sender.value.tx.id) ==>
          links[k].owner.value.retryCount <=
          s.sender.value.tx.retryCount - (if s.sender.value.stage.Opening? then 1 else 0))
    && (forall i, k :: 0 <= i < |s.finished| && 0 <= k < |links| && Owns(links[k], s.finished[i].id) ==>
          links[k].owner.value.retryCount <= s.finished[i].retryCount)
  }

  /** A link on which B ingested what the transaction carries. */
  ghost predicate Witnesses(l: Link, tx: Transaction) {
    l.owner == Some(tx.(state := Sending)) && l.handler.ingest == Some(true)
  }

  ghost predicate AcksWitnessed(finished: seq<Transaction>, links: seq<Link>) {
    forall i :: 0 <= i < |finished| && finished[i].state.Acked? ==>
      exists k :: 0 <= k < |links| && Witnesses(links[k], finished[i])
  }

  const OWN_REASONS := {"POLICY_DENIED_UNKNOWN_TLP", "POLICY_DENIED_UNAUTHORIZED_RECIPIENT",
                        "UNKNOWN_RECIPIENT_ROUTING", "MAX_RETRIES_EXCEEDED"}

  /** B's first answer on a link of the transaction was the NACK that the dead letter names. */
  ghost predicate NackedOn(l: Link, e: Entry, r: NackReason) {
    && Owns(l, e.transactionId) && l.handler.writes != []
    && l.handler.writes[0].NackOf? && l.handler.writes[0].reason == r
    && e.reason == "NACK_" + ReasonText(r)
  }

  ghost predicate Explained(e: Entry, links: seq<Link>) {
    e.reason in OWN_REASONS || exists k, r :: 0 <= k < |links| && NackedOn(links[k], e, r)
  }

  ghost predicate AllExplained(entries: seq<Entry>, links: seq<Link>) {
    forall i :: 0 <= i < |entries| ==> Explained(entries[i], links)
  }

  /** Everything that ties the links to the pipeline. */
  ghost predicate Linked(net: Net, s: P.State, links: seq<Link>, current: Option<nat>) {
    && AllLinks(net, links)
    && CurrentLink(s, links, current)
    && Numbered(net.setup.maxAttempts, links)
    && Attributed(s, links)
    && AcksWitnessed(s.finished, links)
    && AllExplained(s.deadLetters, links)
  }

  // ----- Links only grow -----

  /** The links after some made progress and others were added. */
  ghost predicate Extends(links: seq<Link>, links': seq<Link>) {
    && |links| <= |links'|
    && forall k :: 0 <= k < |links| ==> links'[k].owner == links[k].owner && Grows(links[k].handler, links'[k].handler)
  }

  lemma ExtendsKeepsWitnesses(finished: seq<Transaction>, links: seq<Link>, links': seq<Link>)
    requires AcksWitnessed(finished, links) && Extends(links, links')
    ensures AcksWitnessed(finished, links')
  {
    forall i | 0 <= i < |finished| && finished[i].state.Acked?
      ensures exists k :: 0 <= k < |links'| && Witnesses(links'[k], finished[i])
    {
      var k :| 0 <= k < |links| && Witnesses(links[k], finished[i]);
      assert Witnesses(links'[k], finished[i]);
    }
  }

  lemma ExtendsKeepsExplained(entries: seq<Entry>, links: seq<Link>, links': seq<Link>)
    requires AllExplained(entries, links) && Extends(links, links')
    ensures AllExplained(entries, links')
  {
    forall i | 0 <= i < |entries|
      ensures Explained(entries[i], links')
    {
      if entries[i].reason !in OWN_REASONS {
        var k, r :| 0 <= k < |links| && NackedOn(links[k], entries[i], r);
        assert NackedOn(links'[k], entries[i], r);
      }
    }
  }

  // ----- Steps of gateway B -----

  lemma SameOwnersKeepAttempts(max: int, s: P.State, current: Option<nat>, links: seq<Link>, links': seq<Link>)
    requires Extends(links, links') && |links'| == |links|
    requires CurrentLink(s, links, current) && Numbered(max, links) && Attributed(s, links)
    ensures CurrentLink(s, links', current) && Numbered(max, links') && Attributed(s, links')
  {
  }

  lemma AllLinksUpdate(net: Net, links: seq<Link>, k: nat, l: Link)
    requires AllLinks(net, links) && k < |links| && LinkInv(net, l)
    ensures AllLinks(net, links[k := l])
  {
    forall l' | l' in links[k := l]
      ensures LinkInv(net, l')
    {
      var i :| 0 <= i < |links| && links[k := l][i] == l';
      assert i != k ==> l' == links[i] && links[i] in links;
    }
  }

  lemma ExtendsUpdate(links: seq<Link>, k: nat, l: Link)
    requires k < |links| && l.owner == links[k].owner && Grows(links[k].handler, l.handler)
    ensures Extends(links, links[k := l])
  {
  }

  lemma LinkStepKeepsLinked(net: Net, s: P.State, links: seq<Link>, current: Option<nat>, k: nat, l: Link)
    requires Linked(net, s, links, current) && k < |links| && LinkInv(net, l)
    requires l.owner == links[k].owner && Grows(links[k].handler, l.handler)
    ensures Linked(net, s, links[k := l], current)
  {
    var links' := links[k := l];
    ExtendsUpdate(links, k, l);
    AllLinksUpdate(net, links, k, l);
    ExtendsKeepsWitnesses(s.finished, links, links');
    ExtendsKeepsExplained(s.deadLetters, links, links');
    SameOwnersKeepAttempts(net.setup.maxAttempts, s, current, links, links');
  }

  lemma SlotKeepsLinked(net: Net, s: P.State, links: seq<Link>, current: Option<nat>, k: nat, slot: Slot)
    requires Linked(net, s, links, current) && k < |links|
    ensures Linked(net, s, links[k := links[k].(slot := slot)], current)
  {
    assert links[k] in links;
    LinkStepKeepsLinked(net, s, links, current, k, links[k].(slot := slot));
  }

  /** A link that some step of its handler may leave. */
  ghost predicate Changed(net: Net, l: Link, l': Link) {
    LinkInv(net, l') && l'.owner == l.owner && Grows(l.handler, l'.handler)
  }

  lemma ArriveChangesLink(net: Net, l: Link, size: nat)
    requires LinkInv(net, l) && l.handler.phase.Reading? && size <= READ_SIZE && l.delivered + size <= |l.sent|
    ensures var chunk := l.sent[l.delivered..l.delivered + size];
            Changed(net, l, StepLink(net, l.(delivered := l.delivered + size), Data(chunk)))
  {
    ArriveKeepsLink(net, l, size);
    StepGrows(net, l.peer, l.handler, Data(l.sent[l.delivered..l.delivered + size]));
  }

  lemma ChangeKeepsLinked(net: Net, s: P.State, links: seq<Link>, current: Option<nat>, k: nat, l: Link)
    requires Linked(net, s, links, current) && k < |links| && Changed(net, links[k], l)
    ensures Linked(net, s, links[k := l], current)
  {
    LinkStepKeepsLinked(net, s, links, current, k, l);
  }

  lemma ArriveKeepsLinked(net: Net, s: P.State, links: seq<Link>, current: Option<nat>, k: nat, size: nat)
    requires Linked(net, s, links, current) && k < |links| && links[k].handler.phase.Reading?
    requires size <= READ_SIZE && links[k].delivered + size <= |links[k].sent|
    ensures var l := links[k];
            var chunk := l.sent[l.delivered..l.delivered + size];
            Linked(net, s, links[k := StepLink(net, l.(delivered := l.delivered + size), Data(chunk))], current)
  {
    var l := links[k];
    assert l in links;
    var chunk := l.sent[l.delivered..l.delivered + size];
    ArriveChangesLink(net, l, size);
    ChangeKeepsLinked(net, s, links, current, k, StepLink(net, l.(delivered := l.delivered + size), Data(chunk)));
  }

  lemma ProceedKeepsLinked(net: Net, s: P.State, links: seq<Link>, current: Option<nat>, k: nat, input: Input)
    requires Linked(net, s, links, current) && k < |links| && !input.Data?
    ensures Linked(net, s, links[k := StepLink(net, links[k], input)], current)
  {
    var l := links[k];
    assert l in links;
    ProceedKeepsLink(net, l, input);
    StepGrows(net, l.peer, l.handler, input);
    LinkStepKeepsLinked(net, s, links, current, k, StepLink(net, l, input));
  }

  // ----- New connections -----

  lemma StartIsFresh(net: Net, owner: Option<Transaction>, peer: string, bytes: seq<byte>)
    requires owner.Some? ==>
               && bytes == BytesOf(owner.value)
               && P.Prepared(net.setup, owner.value) && P.Permitted(net.setup, owner.value)
    ensures LinkInv(net, Link(owner, peer, bytes, 0, Queued, START))
  {
  }

  lemma ForeignKeepsNumbers(max: int, links: seq<Link>, l: Link)
    requires l.owner.None? && Numbered(max, links)
    ensures Numbered(max, links + [l])
  {
  }

  lemma ForeignKeepsAttributed(s: P.State, links: seq<Link>, l: Link)
    requires l.owner.None? && Attributed(s, links)
    ensures Attributed(s, links + [l])
  {
  }

  lemma ForeignKeepsAttempts(max: int, s: P.State, current: Option<nat>, links: seq<Link>, l: Link)
    requires l.owner.None? && CurrentLink(s, links, current) && Numbered(max, links) && Attributed(s, links)
    ensures CurrentLink(s, links + [l], current) && Numbered(max, links + [l]) && Attributed(s, links + [l])
  {
    ForeignKeepsNumbers(max, links, l);
    ForeignKeepsAttributed(s, links, l);
  }

  lemma AllLinksAppend(net: Net, links: seq<Link>, l: Link)
    requires AllLinks(net, links) && LinkInv(net, l)
    ensures AllLinks(net, links + [l])
  {
  }

  lemma ExtendsAppend(links: seq<Link>, l: Link)
    ensures Extends(links, links + [l])
  {
  }

  lemma ForeignKeepsLinked(net: Net, s: P.State, links: seq<Link>, current: Option<nat>, peer: string, bytes: seq<byte>)
    requires Linked(net, s, links, current)
    ensures Linked(net, s, links + [Link(None, peer, bytes, 0, Queued, START)], current)
  {
    var l := Link(None, peer, bytes, 0, Queued, START);
    StartIsFresh(net, None, peer, bytes);
    AllLinksAppend(net, links, l);
    ExtendsAppend(links, l);
    ExtendsKeepsWitnesses(s.finished, links, links + [l]);
    ExtendsKeepsExplained(s.deadLetters, links, links + [l]);
    ForeignKeepsAttempts(net.setup.maxAttempts, s, current, links, l);
  }

  /** A's new connection is numbered one past all earlier ones of its transaction. */
  lemma OpenKeepsAttempts(max: int, s: P.State, links: seq<Link>, l: Link)
    requires s.sender.Some? && s.sender.value.stage.Opening? && l.owner == Some(s.sender.value.tx)
    requires 1 <= s.sender.value.tx.retryCount <= max
    requires s.sender.value.tx.id !in P.Ids(s.finished)
    requires Numbered(max, links) && Attributed(s, links)
    ensures var s' := s.(sender := Some(P.Hand(s.sender.value.tx, P.Waiting)));
            CurrentLink(s', links + [l], Some(|links|)) && Numbered(max, links + [l]) && Attributed(s', links + [l])
  {
    var s' := s.(sender := Some(P.Hand(s.sender.value.tx, P.Waiting)));
    var links' := links + [l];
    var id := s.sender.value.tx.id;
    assert P.HeldId(s'.sender) == P.HeldId(s.sender) == [id];
    assert forall j :: 0 <= j < |links| && Owns(links[j], id) ==>
                         links[j].owner.value.retryCount < l.owner.value.retryCount;
    forall i, k | 0 <= i < |s'.finished| && 0 <= k < |links'| && Owns(links'[k], s'.finished[i].id)
      ensures links'[k].owner.value.retryCount <= s'.finished[i].retryCount
    {
      assert P.Ids(s.finished)[i] == s.finished[i].id;
    }
  }

  lemma OpenKeepsLinked(net: Net, s: P.State, links: seq<Link>, current: Option<nat>, peer: string)
    requires Linked(net, s, links, current)
    requires s.sender.Some? && s.sender.value.stage.Opening? && P.InTransmission(net.setup, s.sender.value)
    requires s.sender.value.tx.id !in P.Ids(s.finished)
    ensures var tx := s.sender.value.tx;
            Linked(net, s.(sender := Some(P.Hand(tx, P.Waiting))),
                   links + [Link(Some(tx), peer, BytesOf(tx), 0, Queued, START)], Some(|links|))
  {
    var tx := s.sender.value.tx;
    var l := Link(Some(tx), peer, BytesOf(tx), 0, Queued, START);
    StartIsFresh(net, Some(tx), peer, BytesOf(tx));
    AllLinksAppend(net, links, l);
    ExtendsAppend(links, l);
    OpenKeepsAttempts(net.setup.maxAttempts, s, links, l);
    ExtendsKeepsWitnesses(s.finished, links, links + [l]);
    ExtendsKeepsExplained(s.deadLetters, links, links + [l]);
  }

  // ----- Steps of gateway A that do not involve a reply -----

  /** Stages before transmission do not touch what the links refer to; the policy stage adds dead letters. */
  lemma UpstreamKeepsLinked(net: Net, s: P.State, s': P.State, links: seq<Link>, current: Option<nat>)
    requires Linked(net, s, links, current)
    requires s'.sender == s.sender && s'.finished == s.finished
    requires s'.deadLetters == s.deadLetters ||
             exists e :: s'.deadLetters == s.deadLetters + [e] && e.reason in OWN_REASONS
    ensures Linked(net, s', links, current)
  {
    forall i | 0 <= i < |s'.deadLetters|
      ensures Explained(s'.deadLetters[i], links)
    {
      if i < |s.deadLetters| {
        assert s'.deadLetters[i] == s.deadLetters[i];
      }
    }
  }

  lemma FinishKeepsAttributed(s: P.State, s': P.State, links: seq<Link>, tx: Transaction)
    requires Attributed(s, links)
    requires s'.sender.None? && s'.finished == s.finished + [tx]
    requires s.sender.Some? ==> s.sender.value.tx.id == tx.id && s.sender.value.tx.retryCount == tx.retryCount
    requires s.sender.None? ==> tx.id !in P.Ids(s.finished)
    ensures Attributed(s', links)
  {
    P.IdsAppend(s.finished, tx);
    assert P.Ids(s'.finished) + P.HeldId(s'.sender) == P.Ids(s.finished) + [tx.id];
    forall k | 0 <= k < |links| && Owns(links[k], tx.id)
      ensures links[k].owner.value.retryCount <= tx.retryCount
    {
      assert links[k].owner.value.id in P.Ids(s.finished) + P.HeldId(s.sender);
    }
  }

  /** A transaction leaves the transmission worker's hand: ACKED with a witness, or with its dead letter explained. */
  lemma FinishKeepsLinked(net: Net, s: P.State, s': P.State, links: seq<Link>, current: Option<nat>, tx: Transaction)
    requires Linked(net, s, links, current)
    requires s'.sender.None? && s'.finished == s.finished + [tx]
    requires tx.state.Acked? ==> exists k :: 0 <= k < |links| && Witnesses(links[k], tx)
    requires s'.deadLetters == s.deadLetters ||
             exists e :: s'.deadLetters == s.deadLetters + [e] && Explained(e, links)
    requires s.sender.Some? ==> s.sender.value.tx.id == tx.id && s.sender.value.tx.retryCount == tx.retryCount
    requires s.sender.None? ==> tx.id !in P.Ids(s.finished)
    ensures Linked(net, s', links, None)
  {
    FinishKeepsAttributed(s, s', links, tx);
    forall i | 0 <= i < |s'.deadLetters|
      ensures Explained(s'.deadLetters[i], links)
    {
      if i < |s.deadLetters| {
        assert s'.deadLetters[i] == s.deadLetters[i];
      }
    }
  }

  /** The worker keeps, or takes into its hand, a transaction whose links are all of earlier attempts. */
  lemma HoldKeepsLinked(net: Net, s: P.State, s': P.State, links: seq<Link>, current: Option<nat>, hand: P.Hand)
    requires Linked(net, s, links, current)
    requires s'.sender == Some(hand) && !hand.stage.Waiting?
    requires s'.finished == s.finished && s'.deadLetters == s.deadLetters
    requires s.sender.None? || s.sender.value.tx.id == hand.tx.id
    requires s.sender.None? ==> hand.tx.id !in P.Ids(s.finished)
    requires s.sender.Some? ==>
               s.sender.value.tx.retryCount <= hand.tx.retryCount - (if hand.stage.Opening? then 1 else 0)
    ensures Linked(net, s', links, None)
  {
    forall k | 0 <= k < |links| && links[k].owner.Some?
      ensures links[k].owner.value.id in P.Ids(s'.finished) + P.HeldId(s'.sender)
    {
      assert links[k].owner.value.id in P.Ids(s.finished) + P.HeldId(s.sender);
    }
    forall k | 0 <= k < |links| && Owns(links[k], hand.tx.id)
      ensures links[k].owner.value.retryCount <= hand.tx.retryCount - (if hand.stage.Opening? then 1 else 0)
    {
      assert links[k].owner.value.id in P.Ids(s.finished) + P.HeldId(s.sender);
    }
  }

  /** The attempt's outcome is honest: success has a witness, refusal is a NACK of B on that link. */
  ghost predicate Honest(links: seq<Link>, tx: Transaction, attempt: Attempt) {
    || Retryable(attempt)
    || (attempt.Answered? && attempt.result.success &&
        exists k :: 0 <= k < |links| && Witnesses(links[k], tx.(state := Acked)))
    || (attempt.Answered? && !attempt.result.success &&
        Explained(Entry(tx.id, "NACK_" + attempt.result.reason, Failed), links))
  }

  lemma ConcludeKeepsLinked(net: Net, s: P.State, links: seq<Link>, current: Option<nat>, attempt: Attempt)
    requires Linked(net, s, links, current) && s.sender.Some?
    requires Honest(links, s.sender.value.tx, attempt)
    ensures Linked(net, P.Conclude(net.setup, s, s.sender.value.tx, attempt), links, None)
  {
    var tx := s.sender.value.tx;
    var s' := P.Conclude(net.setup, s, tx, attempt);
    match AfterAttempt(net.setup.maxAttempts, tx.retryCount, attempt)
    case Again => HoldKeepsLinked(net, s, s', links, current, P.Hand(tx, P.Sleeping));
    case Done(state, None) => FinishKeepsLinked(net, s, s', links, current, tx.(state := state));
    case Done(state, Some(reason)) =>
      var e := Entry(tx.id, reason, state);
      assert s'.deadLetters == s.deadLetters + [e];
      assert Explained(e, links);
      FinishKeepsLinked(net, s, s', links, current, tx.(state := state));
  }

  lemma TakeKeepsLinked(net: Net, s: P.State, links: seq<Link>, current: Option<nat>)
    requires Linked(net, s, links, current) && s.sender.None? && s.outgoing != []
    requires s.outgoing[0].id !in P.Ids(s.finished) && s.outgoing[0].state.PolicyApproved?
    ensures Linked(net, P.Take(net.setup, s.(outgoing := s.outgoing[1..]), s.outgoing[0]), links, None)
  {
    var tx := s.outgoing[0];
    var s' := P.Take(net.setup, s.(outgoing := s.outgoing[1..]), tx);
    if s'.sender.Some? {
      HoldKeepsLinked(net, s, s', links, current, s'.sender.value);
    } else {
      var ended := s'.finished[|s.finished|];
      assert s'.finished == s.finished + [ended];
      if s'.deadLetters != s.deadLetters {
        assert s'.deadLetters == s.deadLetters + [Entry(tx.id, "UNKNOWN_RECIPIENT_ROUTING", Failed)];
      }
      FinishKeepsLinked(net, s, s', links, current, ended);
    }
  }

  lemma UpstreamReasons(setup: P.Setup, s: P.State, a: P.Action)
    requires P.Enabled(setup, s, a)
    requires !a.SenderTake? && !a.SessionFails? && !a.SessionOpens? && !a.SendReturns? && !a.Wake?
    ensures var s' := P.Apply(setup, s, a);
            && s'.sender == s.sender && s'.finished == s.finished
            && (s'.deadLetters == s.deadLetters ||
                exists e :: s'.deadLetters == s.deadLetters + [e] && e.reason in OWN_REASONS)
  {
    var s' := P.Apply(setup, s, a);
    if s'.deadLetters != s.deadLetters {
      var e := s'.deadLetters[|s.deadLetters|];
      assert s'.deadLetters == s.deadLetters + [e] && e.reason in OWN_REASONS;
    }
  }

  lemma LocalKeepsLinked(net: Net, s: P.State, links: seq<Link>, current: Option<nat>, a: P.Action)
    requires Linked(net, s, links, current) && P.Unfinished(s) && P.Placed(net.setup, s)
    requires P.Enabled(net.setup, s, a) && !a.SessionOpens? && !a.SendReturns?
    ensures Linked(net, P.Apply(net.setup, s, a), links, current)
  {
    var s' := P.Apply(net.setup, s, a);
    if a.SenderTake? {
      assert P.Approved(net.setup, s.outgoing[0]);
      TakeKeepsLinked(net, s, links, current);
    } else if a.SessionFails? {
      ConcludeKeepsLinked(net, s, links, current, SessionFailed);
    } else if a.Wake? {
      HoldKeepsLinked(net, s, s', links, current, s'.sender.value);
    } else {
      UpstreamReasons(net.setup, s, a);
      UpstreamKeepsLinked(net, s, s', links, current);
    }
  }

  // ----- Replies -----

  lemma OutputStartsWithFirst(dumps: Dumps, ws: seq<Response>) returns (rest: seq<byte>)
    requires ws != []
    ensures Output(dumps, ws) == FrameBytes(dumps, ws[0]) + rest
  {
    var frames := seq(|ws|, i requires 0 <= i < |ws| => FrameBytes(dumps, ws[i]));
    rest := Flatten(frames[1..]);
  }

  /** The NACK reasons of B are not among those A retries on. */
  lemma NackIsFinal(r: NackReason)
    ensures ReasonText(r) !in RETRY_REASONS
  {
  }

  /** Whatever the cut, A sees the end of the stream or B's first response. */
  lemma ReplyIsFirstResponse(dumps: Dumps, loads: Loads, id: string, ws: seq<Response>, size: nat, ending: Ending)
    requires JsonLaw(dumps, loads) && size <= |Output(dumps, ws)|
    requires forall i :: 0 <= i < |ws| ==> Fits(ws[i])
    ensures var r := ReadResponse(loads, id, Output(dumps, ws)[..size], ending);
            r == EndingResult(ending) || (ws != [] && r == Meaning(id, ws[0]))
  {
    if ws != [] {
      assert |dumps(ws[0])| <= CAP;
      var rest := OutputStartsWithFirst(dumps, ws);
      ReadsFirstResponse(dumps, loads, id, ws[0], rest, size, ending);
    }
  }

  /** B acknowledges on a link of A exactly the id of the transaction that opened it. */
  lemma FirstAnswerOnOwnedLink(net: Net, l: Link)
    requires LinkInv(net, l) && l.owner.Some? && l.handler.writes != [] && l.handler.writes[0].AckOf?
    ensures l.handler.writes[0] == AckOf(l.owner.value.id) && l.handler.ingest == Some(true)
  {
    AckIsForDelivery(net.gateway, l.peer, l.handler, 0);
    OwnedPayload(net, l);
  }

  lemma ReplyIsHonest(net: Net, links: seq<Link>, k: nat, tx: Transaction, size: nat, ending: Ending)
    requires JsonLaw(net.dumps, net.loads) && k < |links| && LinkInv(net, links[k])
    requires links[k].owner == Some(tx) && tx.state.Sending? && size <= |Output(net.dumps, links[k].handler.writes)|
    ensures var output := Output(net.dumps, links[k].handler.writes);
            Honest(links, tx, Answered(ReadResponse(net.loads, tx.id, output[..size], ending)))
  {
    var l := links[k];
    var ws := l.handler.writes;
    var r := ReadResponse(net.loads, tx.id, Output(net.dumps, ws)[..size], ending);
    ReplyIsFirstResponse(net.dumps, net.loads, tx.id, ws, size, ending);
    if r != EndingResult(ending) {
      if ws[0].AckOf? {
        FirstAnswerOnOwnedLink(net, l);
        assert Witnesses(l, tx.(state := Acked));
      } else {
        NackIsFinal(ws[0].reason);
        assert NackedOn(l, Entry(tx.id, "NACK_" + r.reason, Failed), ws[0].reason);
      }
    }
  }

  lemma ReplyKeepsLinked(net: Net, s: P.State, links: seq<Link>, k: nat, size: nat, ending: Ending)
    requires JsonLaw(net.dumps, net.loads) && Linked(net, s, links, Some(k)) && k < |links|
    requires s.sender.Some? && s.sender.value.tx.state.Sending? && size <= |Output(net.dumps, links[k].handler.writes)|
    ensures var tx := s.sender.value.tx;
            var r := ReadResponse(net.loads, tx.id, Output(net.dumps, links[k].handler.writes)[..size], ending);
            Linked(net, P.Conclude(net.setup, s, tx, Answered(r)), links, None)
  {
    var tx := s.sender.value.tx;
    assert links[k] in links;
    ReplyIsHonest(net, links, k, tx, size, ending);
    var r := ReadResponse(net.loads, tx.id, Output(net.dumps, links[k].handler.writes)[..size], ending);
    ConcludeKeepsLinked(net, s, links, Some(k), Answered(r));
  }

  /** The pipeline action behind an event, if there is one. */
  function ActionOf(net: Net, w: World, e: Event): Option<P.Action>
    requires Enabled(net, w, e)
  {
    match e
    case Local(a) => Some(a)
    case OpenLink(_) => Some(P.SessionOpens)
    case ReadReply(size, ending) => Some(P.SendReturns(Reply(net, w, size, ending)))
    case WriteFails(ending) => Some(P.SendReturns(EndingResult(ending)))
    case _ => None
  }

  /** The composed system runs the pipeline: every event is one of its actions or leaves it alone. */
  lemma RefinesPipeline(net: Net, w: World, e: Event)
    requires Enabled(net, w, e)
    ensures var a := ActionOf(net, w, e);
            if a.Some? then
              && P.Enabled(net.setup, w.pipeline, a.value)
              && Next(net, w, e).pipeline == P.Apply(net.setup, w.pipeline, a.value)
            else Next(net, w, e).pipeline == w.pipeline
  {
  }

  lemma NextSlot(net: Net, w: World, e: Event)
    requires Linked(net, w.pipeline, w.links, w.current) && Enabled(net, w, e) && (e.Acquire? || e.Release?)
    ensures var w' := Next(net, w, e); Linked(net, w'.pipeline, w'.links, w'.current)
  {
    SlotKeepsLinked(net, w.pipeline, w.links, w.current, e.k, if e.Acquire? then Holding else Released);
  }

  lemma NextArrive(net: Net, w: World, k: nat, size: nat)
    requires Linked(net, w.pipeline, w.links, w.current) && Enabled(net, w, Arrive(k, size))
    ensures var w' := Next(net, w, Arrive(k, size)); Linked(net, w'.pipeline, w'.links, w'.current)
  {
    ArriveKeepsLinked(net, w.pipeline, w.links, w.current, k, size);
  }

  lemma NextProceeds(net: Net, w: World, k: nat, input: Input)
    requires Linked(net, w.pipeline, w.links, w.current) && Enabled(net, w, Proceeds(k, input))
    ensures var w' := Next(net, w, Proceeds(k, input)); Linked(net, w'.pipeline, w'.links, w'.current)
  {
    ProceedKeepsLinked(net, w.pipeline, w.links, w.current, k, input);
  }

  lemma ReplyNext(net: Net, w: World, size: nat, ending: Ending)
    requires Enabled(net, w, ReadReply(size, ending))
    ensures var result := Reply(net, w, size, ending);
            Next(net, w, ReadReply(size, ending)) ==
            w.(pipeline := P.Conclude(net.setup, w.pipeline, w.pipeline.sender.value.tx, Answered(result)),
               current := None)
  {
  }

  lemma NextReadReply(net: Net, w: World, size: nat, ending: Ending)
    requires JsonLaw(net.dumps, net.loads)
    requires Linked(net, w.pipeline, w.links, w.current) && Enabled(net, w, ReadReply(size, ending))
    requires P.InTransmission(net.setup, w.pipeline.sender.value)
    ensures var w' := Next(net, w, ReadReply(size, ending)); Linked(net, w'.pipeline, w'.links, w'.current)
  {
    ReplyKeepsLinked(net, w.pipeline, w.links, w.current.value, size, ending);
    ReplyNext(net, w, size, ending);
  }

  lemma EndingIsRetryable(ending: Ending)
    ensures Retryable(Answered(EndingResult(ending)))
  {
  }

  lemma FailedWriteKeepsLinked(net: Net, s: P.State, links: seq<Link>, current: Option<nat>, ending: Ending)
    requires Linked(net, s, links, current) && s.sender.Some?
    ensures Linked(net, P.Conclude(net.setup, s, s.sender.value.tx, Answered(EndingResult(ending))), links, None)
  {
    EndingIsRetryable(ending);
    ConcludeKeepsLinked(net, s, links, current, Answered(EndingResult(ending)));
  }

  lemma NextWriteFails(net: Net, w: World, ending: Ending)
    requires Linked(net, w.pipeline, w.links, w.current) && Enabled(net, w, WriteFails(ending))
    ensures var w' := Next(net, w, WriteFails(ending)); Linked(net, w'.pipeline, w'.links, w'.current)
  {
    FailedWriteKeepsLinked(net, w.pipeline, w.links, w.current, ending);
  }

  lemma NextOpenLink(net: Net, w: World, peer: string)
    requires Linked(net, w.pipeline, w.links, w.current) && Enabled(net, w, OpenLink(peer))
    requires P.Unfinished(w.pipeline) && P.InTransmission(net.setup, w.pipeline.sender.value)
    ensures var w' := Next(net, w, OpenLink(peer)); Linked(net, w'.pipeline, w'.links, w'.current)
  {
    OpenKeepsLinked(net, w.pipeline, w.links, w.current, peer);
  }

  /** Events of the attempt that A's transmission worker is making. */
  lemma NextOfSender(net: Net, w: World, e: Event)
    requires JsonLaw(net.dumps, net.loads) && Linked(net, w.pipeline, w.links, w.current)
    requires P.Unfinished(w.pipeline) && P.Placed(net.setup, w.pipeline) && Enabled(net, w, e)
    requires e.OpenLink? || e.ReadReply? || e.WriteFails?
    ensures var w' := Next(net, w, e); Linked(net, w'.pipeline, w'.links, w'.current)
  {
    match e
    case OpenLink(peer) => NextOpenLink(net, w, peer);
    case ReadReply(size, ending) => NextReadReply(net, w, size, ending);
    case WriteFails(ending) => NextWriteFails(net, w, ending);
  }

  /** Events that concern gateway B alone. */
  lemma NextOnLink(net: Net, w: World, e: Event)
    requires Linked(net, w.pipeline, w.links, w.current) && Enabled(net, w, e)
    requires e.Acquire? || e.Release? || e.Arrive? || e.Proceeds?
    ensures var w' := Next(net, w, e); Linked(net, w'.pipeline, w'.links, w'.current)
  {
    match e
    case Arrive(k, size) => NextArrive(net, w, k, size);
    case Proceeds(k, input) => NextProceeds(net, w, k, input);
    case _ => NextSlot(net, w, e);
  }

  lemma NextKeepsLinked(net: Net, w: World, e: Event)
    requires JsonLaw(net.dumps, net.loads) && Linked(net, w.pipeline, w.links, w.current)
    requires P.Unfinished(w.pipeline) && P.Placed(net.setup, w.pipeline) && Enabled(net, w, e)
    ensures var w' := Next(net, w, e); Linked(net, w'.pipeline, w'.links, w'.current)
  {
    if e.Local? {
      LocalKeepsLinked(net, w.pipeline, w.links, w.current, e.action);
    } else if e.OpenForeign? {
      ForeignKeepsLinked(net, w.pipeline, w.links, w.current, e.peer, e.bytes);
    } else if e.OpenLink? || e.ReadReply? || e.WriteFails? {
      NextOfSender(net, w, e);
    } else {
      NextOnLink(net, w, e);
    }
  }

  lemma NextKeepsPipelineInv(net: Net, w: World, e: Event)
    requires P.Inv(net.setup, w.pipeline) && Enabled(net, w, e)
    ensures P.Inv(net.setup, Next(net, w, e).pipeline)
  {
    RefinesPipeline(net, w, e);
    var a := ActionOf(net, w, e);
    if a.Some? {
      P.ApplyKeepsInv(net.setup, w.pipeline, a.value);
    }
  }

  /** Gateway A's pipeline keeps its invariants in the composed system. */
  lemma {:induction false} RunsKeepPipelineInv(net: Net, events: seq<Event>, worlds: seq<World>, i: nat)
    requires IsRun(net, events, worlds) && i <= |events|
    ensures P.Inv(net.setup, worlds[i].pipeline)
  {
    if i == 0 {
      P.InitialInv(net.setup);
    } else {
      RunsKeepPipelineInv(net, events, worlds, i - 1);
      NextKeepsPipelineInv(net, worlds[i - 1], events[i - 1]);
    }
  }

  lemma PipelineFacts(net: Net, events: seq<Event>, worlds: seq<World>, i: nat)
    requires IsRun(net, events, worlds) && i <= |events|
    ensures P.Unfinished(worlds[i].pipeline) && P.Placed(net.setup, worlds[i].pipeline)
  {
    RunsKeepPipelineInv(net, events, worlds, i);
    P.NotYetFinished(worlds[i].pipeline);
  }

  ghost predicate Sound(net: Net, w: World) {
    P.Placed(net.setup, w.pipeline) && Linked(net, w.pipeline, w.links, w.current)
  }

  lemma {:induction false} RunsKeepLinked(net: Net, events: seq<Event>, worlds: seq<World>, i: nat)
    requires JsonLaw(net.dumps, net.loads) && IsRun(net, events, worlds) && i <= |events|
    ensures Linked(net, worlds[i].pipeline, worlds[i].links, worlds[i].current)
  {
    if i > 0 {
      RunsKeepLinked(net, events, worlds, i - 1);
      PipelineFacts(net, events, worlds, i - 1);
      NextKeepsLinked(net, worlds[i - 1], events[i - 1]);
    }
  }

  lemma RunsAreSound(net: Net, events: seq<Event>, worlds: seq<World>, i: nat)
    requires JsonLaw(net.dumps, net.loads) && IsRun(net, events, worlds) && i <= |events|
    ensures Sound(net, worlds[i])
  {
    PipelineFacts(net, events, worlds, i);
    RunsKeepLinked(net, events, worlds, i);
  }

  // ----- Theorems over all runs -----

  /** B ingested on this link the bundle that these transaction's bytes contain. */
  ghost predicate IngestedFrom(net: Net, l: Link, tx: Transaction) {
    && l.owner == Some(tx.(state := Sending))
    && exists i :: 0 <= i < |l.handler.trace|
                   && l.handler.trace[i].Ingested? && l.handler.trace[i].accepted
                   && BundleOf(net.gateway, EnvelopeOf(tx)) == Some(l.handler.trace[i].document)
  }

  lemma WitnessIngested(net: Net, l: Link, tx: Transaction)
    requires LinkInv(net, l) && Witnesses(l, tx)
    ensures IngestedFrom(net, l, tx)
  {
    DeliveredIsIngestTrue(net.gateway, l.peer, l.handler);
    var i :| 0 <= i < |l.handler.trace| && l.handler.trace[i].Ingested? && l.handler.trace[i].accepted;
    IngestedTrace(net.gateway, l.peer, l.handler, i);
    OwnedPayload(net, l);
  }

  /**
   * End-to-end safety: in every interleaving of both gateways, lost connections and timeouts, a transaction that
   * A marks ACKED was ingested by B on a connection A opened for it, from exactly the bytes A signed, and if
   * decompression undoes A's compression the ingested document is A's own bundle.
   */
  lemma AckedWasIngested(net: Net, events: seq<Event>, worlds: seq<World>, i: nat, j: nat)
    requires JsonLaw(net.dumps, net.loads) && IsRun(net, events, worlds) && i <= |events|
    requires j < |worlds[i].pipeline.finished| && worlds[i].pipeline.finished[j].state.Acked?
    ensures var w, tx := worlds[i], worlds[i].pipeline.finished[j];
            && P.Prepared(net.setup, tx) && P.Permitted(net.setup, tx)
            && (exists k :: 0 <= k < |w.links| && IngestedFrom(net, w.links[k], tx))
            && (net.gateway.inflate(tx.compressed) == Some(tx.rawJson) ==>
                  BundleOf(net.gateway, EnvelopeOf(tx)) == net.gateway.loadStix(tx.rawJson))
  {
    RunsAreSound(net, events, worlds, i);
    var w, tx := worlds[i], worlds[i].pipeline.finished[j];
    assert P.Ended(net.setup, tx);
    var k :| 0 <= k < |w.links| && Witnesses(w.links[k], tx);
    assert w.links[k] in w.links;
    WitnessIngested(net, w.links[k], tx);
  }

  // ----- Duplicates -----

  function CountOwned(links: seq<Link>, id: string): nat {
    if links == [] then 0 else CountOwned(links[..|links| - 1], id) + if Owns(links[|links| - 1], id) then 1 else 0
  }

  function CountIngests(trace: seq<Gates.Event>): nat {
    if trace == [] then 0
    else
      var last := trace[|trace| - 1];
      CountIngests(trace[..|trace| - 1]) + if last.Ingested? && last.accepted then 1 else 0
  }

  function CountLogs(trace: seq<Gates.Event>): nat {
    if trace == [] then 0
    else CountLogs(trace[..|trace| - 1]) + if trace[|trace| - 1].Logged? then 1 else 0
  }

  /** B's successful ingests on the connections A opened for `id`. */
  function Ingests(links: seq<Link>, id: string): nat {
    if links == [] then 0
    else
      var last := links[|links| - 1];
      Ingests(links[..|links| - 1], id) + if Owns(last, id) then CountIngests(last.handler.trace) else 0
  }

  /** B's ACKED telemetry records made on the connections A opened for `id`. */
  function Records(links: seq<Link>, id: string): nat {
    if links == [] then 0
    else
      var last := links[|links| - 1];
      Records(links[..|links| - 1], id) + if Owns(last, id) then CountLogs(last.handler.trace) else 0
  }

  lemma {:induction false} NoIngests(trace: seq<Gates.Event>, from: nat)
    requires forall i :: 0 <= i < |trace| && trace[i].Ingested? ==> i == from
    ensures CountIngests(trace) <= (if |trace| > from then 1 else 0)
  {
    if trace != [] {
      NoIngests(trace[..|trace| - 1], from);
    }
  }

  lemma {:induction false} NoLogs(trace: seq<Gates.Event>)
    requires forall i :: 0 <= i < |trace| ==> !trace[i].Logged?
    ensures CountLogs(trace) == 0
  {
    if trace != [] {
      NoLogs(trace[..|trace| - 1]);
    }
  }

  lemma {:induction false} IngestCounted(trace: seq<Gates.Event>, i: int)
    requires 0 <= i < |trace| && trace[i].Ingested? && trace[i].accepted
    ensures CountIngests(trace) >= 1
  {
    if i < |trace| - 1 {
      IngestCounted(trace[..|trace| - 1], i);
    }
  }

  lemma LogsByLayout(c: Connection, n: nat)
    requires Layout(c, n)
    ensures CountLogs(c.trace) <= CountIngests(c.trace)
  {
    if AckDrained(c) {
      var front := c.trace[..|c.trace| - 1];
      NoLogs(front);
      IngestCounted(front, n - 1);
    } else {
      NoLogs(c.trace);
    }
  }

  lemma OneIngestPerLink(net: Net, l: Link)
    requires LinkInv(net, l)
    ensures CountIngests(l.handler.trace) <= 1 && CountLogs(l.handler.trace) <= CountIngests(l.handler.trace)
  {
    var g, peer, c := net.gateway, l.peer, l.handler;
    forall i | 0 <= i < |c.trace| && c.trace[i].Ingested?
      ensures i == 3
    {
      IngestedTrace(g, peer, c, i);
    }
    NoIngests(c.trace, 3);
    TraceLayout(g, peer, c);
    LogsByLayout(c, Lead(g, peer, c));
  }

  lemma {:induction false} IngestsBound(net: Net, links: seq<Link>, id: string)
    requires AllLinks(net, links)
    ensures Records(links, id) <= Ingests(links, id) <= CountOwned(links, id)
  {
    if links != [] {
      var n := |links| - 1;
      assert forall l :: l in links[..n] ==> l in links;
      assert links[n] in links;
      IngestsBound(net, links[..n], id);
      OneIngestPerLink(net, links[n]);
    }
  }

  /** Increasing attempt numbers up to `bound` leave room for at most `bound` links. */
  lemma {:induction false} OwnedBound(max: int, links: seq<Link>, id: string, bound: int)
    requires Numbered(max, links) && bound >= 0
    requires forall k :: 0 <= k < |links| && Owns(links[k], id) ==> links[k].owner.value.retryCount <= bound
    ensures CountOwned(links, id) <= bound
    decreases |links|
  {
    if links != [] {
      var n := |links| - 1;
      if Owns(links[n], id) {
        OwnedBound(max, links[..n], id, links[n].owner.value.retryCount - 1);
      } else {
        OwnedBound(max, links[..n], id, bound);
      }
    }
  }

  /**
   * Duplicate bound: B's successful ingests, and its ACKED telemetry records, on the connections of one
   * transaction never exceed A's attempt count for it, hence never `max_attempts`, however late the handlers of
   * timed-out connections finish.
   */
  lemma DuplicateBound(net: Net, events: seq<Event>, worlds: seq<World>, i: nat, id: string)
    requires JsonLaw(net.dumps, net.loads) && IsRun(net, events, worlds) && i <= |events|
    ensures var w := worlds[i];
            && Records(w.links, id) <= Ingests(w.links, id)
            && (net.setup.maxAttempts >= 0 ==> Ingests(w.links, id) <= net.setup.maxAttempts)
            && (forall j :: 0 <= j < |w.pipeline.finished| && w.pipeline.finished[j].id == id ==>
                  Ingests(w.links, id) <= w.pipeline.finished[j].retryCount)
            && (w.pipeline.sender.Some? && w.pipeline.sender.value.tx.id == id ==>
                  Ingests(w.links, id) <= w.pipeline.sender.value.tx.retryCount)
  {
    RunsAreSound(net, events, worlds, i);
    var w := worlds[i];
    IngestsBound(net, w.links, id);
    if net.setup.maxAttempts >= 0 {
      OwnedBound(net.setup.maxAttempts, w.links, id, net.setup.maxAttempts);
    }
    forall j | 0 <= j < |w.pipeline.finished| && w.pipeline.finished[j].id == id
      ensures Ingests(w.links, id) <= w.pipeline.finished[j].retryCount
    {
      OwnedBound(net.setup.maxAttempts, w.links, id, w.pipeline.finished[j].retryCount);
    }
    if w.pipeline.sender.Some? && w.pipeline.sender.value.tx.id == id {
      OwnedBound(net.setup.maxAttempts, w.links, id, w.pipeline.sender.value.tx.retryCount);
    }
  }

  // ----- Refusals -----

  lemma NackedNotDelivered(net: Net, l: Link)
    requires LinkInv(net, l) && l.owner.Some? && l.handler.writes != [] && l.handler.writes[0].NackOf?
    requires |l.owner.value.id| <= 800_000
    ensures !Delivered(l.handler)
  {
    DeliveredIsIngestTrue(net.gateway, l.peer, l.handler);
    if l.handler.ingest == Some(true) {
      OwnedPayload(net, l);
      ExamTrace(net.gateway, l.peer, l.handler.payload.value);
      ShortIdsFit(AckOf(l.owner.value.id));
    }
  }

  /**
   * Dead letters are explained: in every run the reason of a dead letter is the policy's, a routing or retry
   * failure, or "NACK_" and one of B's seven reasons, which B gave as its first answer on a connection of that
   * transaction; and on that connection nothing was ingested if the id can be acknowledged at all.
   */
  lemma DeadLettersExplained(net: Net, events: seq<Event>, worlds: seq<World>, i: nat, j: nat)
    requires JsonLaw(net.dumps, net.loads) && IsRun(net, events, worlds) && i <= |events|
    requires j < |worlds[i].pipeline.deadLetters|
    ensures var w, e := worlds[i], worlds[i].pipeline.deadLetters[j];
            e.reason in OWN_REASONS ||
            exists k, r :: 0 <= k < |w.links| && NackedOn(w.links[k], e, r)
                           && (|e.transactionId| <= 800_000 ==> !Delivered(w.links[k].handler))
  {
    RunsAreSound(net, events, worlds, i);
    var w, e := worlds[i], worlds[i].pipeline.deadLetters[j];
    assert Explained(e, w.links);
    if e.reason !in OWN_REASONS {
      var k, r :| 0 <= k < |w.links| && NackedOn(w.links[k], e, r);
      assert w.links[k] in w.links;
      if |e.transactionId| <= 800_000 {
        NackedNotDelivered(net, w.links[k]);
      }
    }
  }

  lemma FinishedGrows(setup: P.Setup, s: P.State, a: P.Action)
    requires P.Enabled(setup, s, a)
    ensures s.finished <= P.Apply(setup, s, a).finished
  {
  }

  lemma StaysFinished(s: P.State, s': P.State, id: string)
    requires s.finished <= s'.finished && id in P.Ids(s.finished)
    ensures id in P.Ids(s'.finished)
  {
    var j :| 0 <= j < |s.finished| && P.Ids(s.finished)[j] == id;
    assert P.Ids(s'.finished)[j] == id;
  }

  lemma FinishedGrowsNext(net: Net, w: World, e: Event)
    requires Enabled(net, w, e)
    ensures w.pipeline.finished <= Next(net, w, e).pipeline.finished
  {
    RefinesPipeline(net, w, e);
    var a := ActionOf(net, w, e);
    if a.Some? {
      FinishedGrows(net.setup, w.pipeline, a.value);
    }
  }

  /** The links after, and what is new among them does not belong to `id`. */
  ghost predicate NothingNewOf(id: string, links: seq<Link>, links': seq<Link>) {
    && |links| <= |links'|
    && (forall k :: 0 <= k < |links| ==> links'[k].owner == links[k].owner)
    && (forall k :: |links| <= k < |links'| ==> !Owns(links'[k], id))
  }

  lemma NothingNewTransitive(id: string, a: seq<Link>, b: seq<Link>, c: seq<Link>)
    requires NothingNewOf(id, a, b) && NothingNewOf(id, b, c)
    ensures NothingNewOf(id, a, c)
  {
  }

  lemma OpensForOther(net: Net, w: World, e: Event, id: string)
    requires Enabled(net, w, e) && P.Unfinished(w.pipeline) && id in P.Ids(w.pipeline.finished)
    ensures NothingNewOf(id, w.links, Next(net, w, e).links)
  {
  }

  /** One step opens no connection for a transaction that has ended. */
  lemma StepAfterEnd(net: Net, w: World, e: Event, id: string)
    requires Enabled(net, w, e) && P.Unfinished(w.pipeline) && id in P.Ids(w.pipeline.finished)
    ensures id in P.Ids(Next(net, w, e).pipeline.finished) && NothingNewOf(id, w.links, Next(net, w, e).links)
  {
    FinishedGrowsNext(net, w, e);
    StaysFinished(w.pipeline, Next(net, w, e).pipeline, id);
    OpensForOther(net, w, e, id);
  }

  lemma EndedInRun(net: Net, events: seq<Event>, worlds: seq<World>, j: nat, id: string)
    requires IsRun(net, events, worlds) && j < |events| && id in P.Ids(worlds[j].pipeline.finished)
    ensures id in P.Ids(worlds[j + 1].pipeline.finished) && NothingNewOf(id, worlds[j].links, worlds[j + 1].links)
  {
    PipelineFacts(net, events, worlds, j);
    StepAfterEnd(net, worlds[j], events[j], id);
  }

  /** After a transaction has ended, no later state of the run holds a new connection for it. */
  lemma {:induction false} NoAttemptAfterEnd(net: Net, events: seq<Event>, worlds: seq<World>, i: nat, i': nat,
                                             id: string)
    requires IsRun(net, events, worlds) && i <= i' <= |events| && id in P.Ids(worlds[i].pipeline.finished)
    ensures id in P.Ids(worlds[i'].pipeline.finished) && NothingNewOf(id, worlds[i].links, worlds[i'].links)
    decreases i' - i
  {
    if i < i' {
      var j := i' - 1;
      NoAttemptAfterEnd(net, events, worlds, i, j, id);
      EndedInRun(net, events, worlds, j, id);
      NothingNewTransitive(id, worlds[i].links, worlds[j].links, worlds[j + 1].links);
    }
  }

  lemma NackEndsTransmission(maxAttempts: int, count: nat, id: string, r: Response)
    requires r.NackOf?
    ensures AfterAttempt(maxAttempts, count, Answered(Meaning(id, r))) ==
            Done(Failed, Some("NACK_" + ReasonText(r.reason)))
  {
    NackIsFinal(r.reason);
  }

  lemma FirstReadIsMeaning(dumps: Dumps, loads: Loads, id: string, ws: seq<Response>, size: nat, ending: Ending)
    requires JsonLaw(dumps, loads) && ws != [] && Fits(ws[0])
    requires |FrameBytes(dumps, ws[0])| <= size <= |Output(dumps, ws)|
    ensures ReadResponse(loads, id, Output(dumps, ws)[..size], ending) == Meaning(id, ws[0])
  {
    assert |dumps(ws[0])| <= CAP;
    var rest := OutputStartsWithFirst(dumps, ws);
    ReadsFirstResponse(dumps, loads, id, ws[0], rest, size, ending);
  }

  lemma NackConcludes(setup: P.Setup, s: P.State, tx: Transaction, r: Response)
    requires r.NackOf?
    ensures var s' := P.Conclude(setup, s, tx, Answered(Meaning(tx.id, r)));
            && s'.deadLetters == s.deadLetters + [Entry(tx.id, "NACK_" + ReasonText(r.reason), Failed)]
            && s'.finished == s.finished + [tx.(state := Failed)] && tx.id in P.Ids(s'.finished)
  {
    NackEndsTransmission(setup.maxAttempts, tx.retryCount, tx.id, r);
    P.IdsAppend(s.finished, tx.(state := Failed));
  }

  /** A reads B's first response on its current link, a NACK, to the end. */
  ghost predicate ReadsNack(net: Net, w: World, e: Event, r: Response) {
    && e.ReadReply? && Enabled(net, w, e) && r.NackOf?
    && var ws := w.links[w.current.value].handler.writes;
       ws != [] && ws[0] == r && |FrameBytes(net.dumps, r)| <= e.size
  }

  lemma FirstResponseFits(net: Net, l: Link)
    requires LinkInv(net, l) && l.handler.writes != []
    ensures Fits(l.handler.writes[0])
  {
  }

  lemma FirstResponseFitsInRun(net: Net, events: seq<Event>, worlds: seq<World>, i: nat, k: nat)
    requires JsonLaw(net.dumps, net.loads) && IsRun(net, events, worlds) && i <= |events|
    requires k < |worlds[i].links| && worlds[i].links[k].handler.writes != []
    ensures Fits(worlds[i].links[k].handler.writes[0])
  {
    RunsKeepLinked(net, events, worlds, i);
    assert worlds[i].links[k] in worlds[i].links;
    FirstResponseFits(net, worlds[i].links[k]);
  }

  lemma NackStep(net: Net, w: World, e: Event, r: Response)
    requires JsonLaw(net.dumps, net.loads) && ReadsNack(net, w, e, r) && Fits(r)
    ensures var s, s', tx := w.pipeline, Next(net, w, e).pipeline, w.pipeline.sender.value.tx;
            && s'.deadLetters == s.deadLetters + [Entry(tx.id, "NACK_" + ReasonText(r.reason), Failed)]
            && s'.finished == s.finished + [tx.(state := Failed)] && tx.id in P.Ids(s'.finished)
    ensures Next(net, w, e).links == w.links
  {
    var tx := w.pipeline.sender.value.tx;
    FirstReadIsMeaning(net.dumps, net.loads, tx.id, w.links[w.current.value].handler.writes, e.size, e.ending);
    NackConcludes(net.setup, w.pipeline, tx, r);
    ReplyNext(net, w, e.size, e.ending);
  }

  /**
   * NACKs are final: in every run, when A reads to the end of a NACK frame that B wrote, the transaction ends at
   * once as FAILED with one dead letter, "NACK_" and B's reason, and A never opens another connection for it.
   */
  lemma NackReadIsFinal(net: Net, events: seq<Event>, worlds: seq<World>, i: nat, i': nat, r: Response)
    requires JsonLaw(net.dumps, net.loads) && IsRun(net, events, worlds) && i < i' <= |events|
    requires ReadsNack(net, worlds[i], events[i], r)
    ensures var s, s', tx := worlds[i].pipeline, worlds[i + 1].pipeline, worlds[i].pipeline.sender.value.tx;
            && s'.deadLetters == s.deadLetters + [Entry(tx.id, "NACK_" + ReasonText(r.reason), Failed)]
            && s'.finished == s.finished + [tx.(state := Failed)]
            && NothingNewOf(tx.id, worlds[i].links, worlds[i'].links)
  {
    FirstResponseFitsInRun(net, events, worlds, i, worlds[i].current.value);
    NackStep(net, worlds[i], events[i], r);
    NoAttemptAfterEnd(net, events, worlds, i + 1, i', worlds[i].pipeline.sender.value.tx.id);
  }

  // ----- Marking and policy -----

  /** The policy check in an examination is made on the envelope's own fields. */
  lemma PolicyCheckedFields(e: TransactionEnvelope, trace: seq<Gates.Event>, i: int)
    requires OrderedChecks(e, trace) && 0 <= i < |trace| && trace[i].PolicyChecked?
    ensures trace[i].sender == e.senderId && trace[i].recipient == e.recipientId
    ensures trace[i].tlp == TlpText(e.tlpMarking)
  {
    assert i == 1;
  }

  lemma NoPolicyCheckAfterExam(exam: Exam, c: Connection, i: int)
    requires InvExamined(exam, c) && |exam.trace| <= i < |c.trace|
    ensures !c.trace[i].PolicyChecked?
  {
  }

  lemma PolicyCheckInExam(exam: Exam, c: Connection, e: TransactionEnvelope, i: int)
    requires InvExamined(exam, c) && OrderedChecks(e, exam.trace)
    requires 0 <= i < |c.trace| && c.trace[i].PolicyChecked?
    ensures c.trace[i].sender == e.senderId && c.trace[i].recipient == e.recipientId
    ensures c.trace[i].tlp == TlpText(e.tlpMarking)
  {
    if i < |exam.trace| {
      assert exam.trace <= c.trace;
      PolicyCheckedFields(e, exam.trace, i);
    } else {
      NoPolicyCheckAfterExam(exam, c, i);
    }
  }

  lemma PolicyCheckedOnLink(net: Net, l: Link, i: int)
    requires LinkInv(net, l) && l.owner.Some? && 0 <= i < |l.handler.trace| && l.handler.trace[i].PolicyChecked?
    ensures l.handler.trace[i].sender == l.owner.value.senderId
    ensures l.handler.trace[i].recipient == l.owner.value.recipientId
    ensures l.handler.trace[i].tlp == TlpText(l.owner.value.tlp)
  {
    var c := l.handler;
    var payload := c.payload.value;
    var exam := Examine(net.gateway, l.peer, payload);
    OwnedPayload(net, l);
    ExamTrace(net.gateway, l.peer, payload);
    PolicyCheckInExam(exam, c, EnvelopeOf(l.owner.value), i);
  }

  /**
   * Marking preservation: in every run the marking that B's policy judges on a connection of A is that of the
   * last recognised tag of the source event, AMBER if there is none.
   */
  lemma MarkingIsPreserved(net: Net, events: seq<Event>, worlds: seq<World>, i: nat, k: nat, n: nat)
    requires JsonLaw(net.dumps, net.loads) && IsRun(net, events, worlds) && i <= |events|
    requires k < |worlds[i].links| && worlds[i].links[k].owner.Some?
    requires n < |worlds[i].links[k].handler.trace| && worlds[i].links[k].handler.trace[n].PolicyChecked?
    ensures var l := worlds[i].links[k];
            exists tlp :: OutboundPep.IsLastMarking(l.owner.value.tags, tlp) && l.handler.trace[n].tlp == TlpText(tlp)
  {
    RunsAreSound(net, events, worlds, i);
    var l := worlds[i].links[k];
    assert l in worlds[i].links;
    PolicyCheckedOnLink(net, l, n);
    OutboundPep.MarkingIsLast(l.owner.value.tags);
    assert OutboundPep.IsLastMarking(l.owner.value.tags, l.owner.value.tlp);
  }

  lemma PolicyDenialIsTheGate(g: Gateway, peer: string, e: TransactionEnvelope)
    requires Identify(g, peer, e).verdict.Refuse? && Identify(g, peer, e).verdict.reason.PolicyDenied?
    ensures !InboundPep.Evaluate(g.rules, e.senderId, e.recipientId, TlpText(e.tlpMarking)).ExplicitAllow?
  {
  }

  lemma DenialIsTheVerdict(exam: Exam, c: Connection, i: int)
    requires InvExamined(exam, c) && 0 <= i < |c.writes| && c.writes[i].NackOf? && c.writes[i].reason.PolicyDenied?
    ensures exam.verdict.Refuse? && exam.verdict.reason.PolicyDenied?
  {
  }

  lemma DenialOnLink(net: Net, l: Link, i: int)
    requires LinkInv(net, l) && l.owner.Some? && 0 <= i < |l.handler.writes|
    requires l.handler.writes[i].NackOf? && l.handler.writes[i].reason.PolicyDenied?
    ensures var t := l.owner.value;
            !InboundPep.Evaluate(net.gateway.rules, t.senderId, t.recipientId, TlpText(t.tlp)).ExplicitAllow?
  {
    var payload := l.handler.payload.value;
    var exam := Examine(net.gateway, l.peer, payload);
    OwnedPayload(net, l);
    DenialIsTheVerdict(exam, l.handler, i);
    PolicyDenialIsTheGate(net.gateway, l.peer, EnvelopeOf(l.owner.value));
  }

  /**
   * With the deployed tables, no transaction from RAW to NIA that A's policy let out is refused by B's: in every
   * run, no connection of such a transaction is answered POLICY_DENIED.
   */
  lemma DeployedPoliciesAgree(net: Net, events: seq<Event>, worlds: seq<World>, i: nat, k: nat, n: nat)
    requires JsonLaw(net.dumps, net.loads) && IsRun(net, events, worlds) && i <= |events|
    requires net.setup.policy == OutboundPep.Table(OutboundPep.DEPLOYED) && net.gateway.rules == InboundPep.DEPLOYED
    requires k < |worlds[i].links| && worlds[i].links[k].owner.Some?
    requires worlds[i].links[k].owner.value.senderId == "RAW" && worlds[i].links[k].owner.value.recipientId == "NIA"
    requires n < |worlds[i].links[k].handler.writes|
    ensures var r := worlds[i].links[k].handler.writes[n]; !(r.NackOf? && r.reason.PolicyDenied?)
  {
    RunsAreSound(net, events, worlds, i);
    var l := worlds[i].links[k];
    assert l in worlds[i].links;
    OutboundPep.DeployedTablesAgree(l.owner.value.tlp);
    assert P.Permitted(net.setup, l.owner.value);
    if l.handler.writes[n].NackOf? && l.handler.writes[n].reason.PolicyDenied? {
      DenialOnLink(net, l, n);
    }
  }

  // ----- Histories -----

  /** `states` are the pipeline's states in the run, `index[j]` the place of the j-th world's. */
  ghost predicate Projects(worlds: seq<World>, i: nat, states: seq<P.State>, index: seq<nat>) {
    && |index| == i + 1 <= |worlds|
    && (forall j :: 0 <= j <= i ==> index[j] < |states| && states[index[j]] == worlds[j].pipeline)
    && (forall j, k :: 0 <= j <= k <= i ==> index[j] <= index[k])
    && index[i] == |states| - 1
  }

  lemma RunGoesOn(setup: P.Setup, actions: seq<P.Action>, states: seq<P.State>, a: P.Action)
    requires P.IsRun(setup, actions, states) && P.Enabled(setup, states[|actions|], a)
    ensures P.IsRun(setup, actions + [a], states + [P.Apply(setup, states[|actions|], a)])
  {
  }

  /** The pipeline's run goes on by an action, or stays as it is. */
  ghost predicate Continues(net: Net, states: seq<P.State>, s': P.State, a: Option<P.Action>)
    requires states != []
  {
    var s := states[|states| - 1];
    if a.Some? then P.Enabled(net.setup, s, a.value) && s' == P.Apply(net.setup, s, a.value) else s' == s
  }

  lemma ProjectionGoesOn(worlds: seq<World>, i: nat, states: seq<P.State>, index: seq<nat>, more: seq<P.State>)
    requires i > 0 && Projects(worlds, i - 1, states, index) && i < |worlds|
    requires more == [worlds[i].pipeline] || (more == [] && worlds[i].pipeline == worlds[i - 1].pipeline)
    ensures Projects(worlds, i, states + more, index + [|states + more| - 1])
  {
  }

  lemma ContinuesRun(net: Net, actions: seq<P.Action>, states: seq<P.State>, s': P.State, a: Option<P.Action>)
    requires P.IsRun(net.setup, actions, states) && Continues(net, states, s', a) && a.Some?
    ensures P.IsRun(net.setup, actions + [a.value], states + [s'])
  {
    RunGoesOn(net.setup, actions, states, a.value);
  }

  /** Every run of the composed system contains a run of the pipeline, so what holds of those holds here. */
  lemma {:induction false} RunsProject(net: Net, events: seq<Event>, worlds: seq<World>, i: nat)
    returns (actions: seq<P.Action>, states: seq<P.State>, index: seq<nat>)
    requires IsRun(net, events, worlds) && i <= |events|
    ensures P.IsRun(net.setup, actions, states) && Projects(worlds, i, states, index)
  {
    if i == 0 {
      actions, states, index := [], [P.INITIAL], [0];
    } else {
      actions, states, index := RunsProject(net, events, worlds, i - 1);
      RefinesPipeline(net, worlds[i - 1], events[i - 1]);
      var a := ActionOf(net, worlds[i - 1], events[i - 1]);
      var more: seq<P.State> := if a.Some? then [worlds[i].pipeline] else [];
      ProjectionGoesOn(worlds, i, states, index, more);
      if a.Some? {
        ContinuesRun(net, actions, states, worlds[i].pipeline, a);
        actions := actions + [a.value];
      } else {
        assert states + more == states;
      }
      states := states + more;
      index := index + [|states| - 1];
    }
  }

  /** The history of a transaction in the composed system: along its path, never back, and unchanged once ended. */
  lemma TransactionHistory(net: Net, events: seq<Event>, worlds: seq<World>, i: nat, i': nat, tx: Transaction,
                           later: Transaction)
    requires IsRun(net, events, worlds) && i <= i' <= |events|
    requires R.Somewhere(worlds[i].pipeline, tx) && R.Somewhere(worlds[i'].pipeline, later) && tx.id == later.id
    ensures R.Evolves(tx, later)
    ensures var s := worlds[i].pipeline;
            tx in s.finished || tx in s.rejected || tx in s.dropped ==> later == tx
  {
    var actions, states, index := RunsProject(net, events, worlds, i');
    R.History(net.setup, actions, states, index[i], index[i'], tx, later);
    var s := worlds[i].pipeline;
    if tx in s.finished || tx in s.rejected || tx in s.dropped {
      R.EndedStaysAsIs(net.setup, actions, states, index[i], index[i'], tx, later);
    }
  }

  // ----- Concurrency -----

  lemma {:induction false} HoldersUpdate(links: seq<Link>, k: nat, l: Link)
    requires k < |links|
    ensures Holders(links[k := l]) ==
            Holders(links) - (if links[k].slot.Holding? then 1 else 0) + (if l.slot.Holding? then 1 else 0)
    decreases |links|
  {
    var n := |links| - 1;
    if k == n {
      assert links[k := l][..n] == links[..n];
    } else {
      assert links[k := l][..n] == links[..n][k := l];
      HoldersUpdate(links[..n], k, l);
    }
  }

  lemma HoldersAppend(links: seq<Link>, l: Link)
    requires l.slot.Queued?
    ensures Holders(links + [l]) == Holders(links)
  {
    assert (links + [l])[..|links|] == links;
  }

  /** What one step may do to a slot and the counter together. */
  predicate SlotStep(slot: Slot, after: Slot, permits: nat, left: nat) {
    || (after == slot && left == permits)
    || (slot.Queued? && after.Holding? && left + 1 == permits)
    || (slot.Holding? && after.Released? && left == permits + 1)
  }

  /** Only the k-th link changes. */
  ghost predicate ChangesAt(w: World, w': World, k: nat) {
    && k < |w.links| == |w'.links| && w'.links == w.links[k := w'.links[k]]
    && SlotStep(w.links[k].slot, w'.links[k].slot, w.permits, w'.permits)
  }

  /** How the links of a world change in one step. */
  lemma LinksChange(net: Net, w: World, e: Event)
    requires Enabled(net, w, e)
    ensures var w' := Next(net, w, e);
            || (w'.links == w.links && w'.permits == w.permits)
            || (w'.permits == w.permits && |w'.links| == |w.links| + 1
                && w'.links == w.links + [w'.links[|w.links|]] && w'.links[|w.links|].slot.Queued?)
            || exists k: nat :: ChangesAt(w, w', k)
  {
    var w' := Next(net, w, e);
    if e.Acquire? || e.Release? || e.Arrive? || e.Proceeds? {
      assert ChangesAt(w, w', e.k);
    }
  }

  lemma StepKeepsPermits(net: Net, w: World, e: Event)
    requires Enabled(net, w, e)
    ensures Next(net, w, e).permits + Holders(Next(net, w, e).links) == w.permits + Holders(w.links)
  {
    var w' := Next(net, w, e);
    LinksChange(net, w, e);
    if w'.links == w.links && w'.permits == w.permits {
    } else if |w'.links| == |w.links| + 1 {
      HoldersAppend(w.links, w'.links[|w.links|]);
    } else {
      var k: nat :| ChangesAt(w, w', k);
      HoldersUpdate(w.links, k, w'.links[k]);
    }
  }

  /** In every run the permits left and the permits held are together what the semaphore was created with. */
  lemma {:induction false} PermitsAreConserved(net: Net, events: seq<Event>, worlds: seq<World>, i: nat)
    requires IsRun(net, events, worlds) && i <= |events|
    ensures worlds[i].permits + Holders(worlds[i].links) == net.maxConcurrent
  {
    if i > 0 {
      PermitsAreConserved(net, events, worlds, i - 1);
      StepKeepsPermits(net, worlds[i - 1], events[i - 1]);
    }
  }

  /** A handler that was let in and has not closed its connection. */
  predicate IsActive(l: Link) {
    !l.slot.Queued? && !l.handler.phase.Closed?
  }

  /** A handler does nothing before it holds a permit, and closes before it gives it back. */
  ghost predicate WorksUnderPermit(links: seq<Link>) {
    forall k :: 0 <= k < |links| ==>
      && (links[k].slot.Queued? ==> links[k].handler == START && links[k].delivered == 0)
      && (links[k].slot.Released? ==> links[k].handler.phase.Closed?)
  }

  lemma StepUnderPermit(net: Net, w: World, e: Event)
    requires Enabled(net, w, e) && WorksUnderPermit(w.links)
    ensures WorksUnderPermit(Next(net, w, e).links)
  {
  }

  lemma {:induction false} HandlersHoldPermits(net: Net, events: seq<Event>, worlds: seq<World>, i: nat)
    requires IsRun(net, events, worlds) && i <= |events|
    ensures WorksUnderPermit(worlds[i].links)
  {
    if i > 0 {
      HandlersHoldPermits(net, events, worlds, i - 1);
      StepUnderPermit(net, worlds[i - 1], events[i - 1]);
    }
  }

  function Actives(links: seq<Link>): nat {
    if links == [] then 0 else Actives(links[..|links| - 1]) + if IsActive(links[|links| - 1]) then 1 else 0
  }

  lemma {:induction false} ActivesHold(links: seq<Link>)
    requires WorksUnderPermit(links)
    ensures Actives(links) <= Holders(links)
  {
    if links != [] {
      ActivesHold(links[..|links| - 1]);
    }
  }

  /** In every run at most `max_concurrent` handlers are at work, and a connection's buffer stays bounded. */
  lemma HandlersAreBounded(net: Net, events: seq<Event>, worlds: seq<World>, i: nat)
    requires JsonLaw(net.dumps, net.loads) && IsRun(net, events, worlds) && i <= |events|
    ensures Actives(worlds[i].links) + worlds[i].permits <= net.maxConcurrent
    ensures forall k :: 0 <= k < |worlds[i].links| ==> |worlds[i].links[k].handler.buffer| <= 10_485_760 + 4100
  {
    HandlersHoldPermits(net, events, worlds, i);
    ActivesHold(worlds[i].links);
    PermitsAreConserved(net, events, worlds, i);
    RunsAreSound(net, events, worlds, i);
    forall k | 0 <= k < |worlds[i].links|
      ensures |worlds[i].links[k].handler.buffer| <= CAP + 4100
    {
      assert worlds[i].links[k] in worlds[i].links;
    }
  }
}
