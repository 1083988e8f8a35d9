/**
 * What the composed system can do: from every reachable world the work in flight can be finished, and an attempt
 * that gateway B would admit can end with an ACK.
 */
module Progress {
  import opened Basics
  import opened FrameCodec
  import opened Envelope
  import opened Responses
  import opened Gates
  import opened Handler
  import opened Exchange
  import opened System
  import P = Pipeline
  import R = PipelineRuns

  // ----- Continuations -----

  function Try(net: Net, w: Option<World>, e: System.Event): Option<World> {
    if w.Some? && System.Enabled(net, w.value, e) then Some(System.Next(net, w.value, e)) else None
  }

  /** The world after a sequence of events, if each is enabled when its turn comes. */
  function After(net: Net, w: World, events: seq<System.Event>): Option<World> {
    if events == [] then Some(w)
    else Try(net, After(net, w, events[..|events| - 1]), events[|events| - 1])
  }

  lemma AfterLast(net: Net, w: World, events: seq<System.Event>, e: System.Event)
    ensures After(net, w, events + [e]) == Try(net, After(net, w, events), e)
  {
    assert (events + [e])[..|events|] == events;
  }

  lemma AfterOne(net: Net, w: World, e: System.Event)
    requires System.Enabled(net, w, e)
    ensures After(net, w, [e]) == Some(System.Next(net, w, e))
  {
    AfterLast(net, w, [], e);
    assert [] + [e] == [e];
  }

  lemma AfterConcatStep(net: Net, w: World, first: seq<System.Event>, w': World, second: seq<System.Event>,
                        e: System.Event)
    requires After(net, w, first + second) == After(net, w', second)
    ensures After(net, w, first + (second + [e])) == After(net, w', second + [e])
  {
    ConcatAssociates(first, second, [e]);
    AfterLast(net, w, first + second, e);
    AfterLast(net, w', second, e);
  }

  lemma AfterNone(net: Net, w: World, first: seq<System.Event>, w': World)
    requires After(net, w, first) == Some(w')
    ensures After(net, w, first + []) == After(net, w', [])
  {
    assert first + [] == first;
  }

  lemma {:induction false} AfterConcat(net: Net, w: World, first: seq<System.Event>, w': World,
                                       second: seq<System.Event>)
    requires After(net, w, first) == Some(w')
    ensures After(net, w, first + second) == After(net, w', second)
    decreases |second|
  {
    if |second| == 0 {
      AfterNone(net, w, first, w');
    } else {
      var front, last := second[..|second| - 1], second[|second| - 1];
      AfterConcat(net, w, first, w', front);
      AfterConcatStep(net, w, first, w', front, last);
      assert second == front + [last];
    }
  }

  /** The last of a sequence of events is a step from the world before it. */
  lemma AfterSplits(net: Net, w: World, events: seq<System.Event>)
    requires events != [] && After(net, w, events).Some?
    ensures var n := |events| - 1;
            var before := After(net, w, events[..n]);
            && before.Some? && System.Enabled(net, before.value, events[n])
            && After(net, w, events).value == System.Next(net, before.value, events[n])
  {
  }

  lemma RunGoesOn(net: Net, events: seq<System.Event>, worlds: seq<World>, w: World, e: System.Event)
    requires System.IsRun(net, events, worlds) && worlds[|events|] == w && System.Enabled(net, w, e)
    ensures System.IsRun(net, events + [e], worlds + [System.Next(net, w, e)])
  {
  }

  /** A continuation extends the run. */
  lemma {:induction false} RunExtends(net: Net, events: seq<System.Event>, worlds: seq<World>, more: seq<System.Event>)
    returns (later: seq<World>)
    requires System.IsRun(net, events, worlds) && After(net, worlds[|events|], more).Some?
    ensures System.IsRun(net, events + more, worlds + later)
    ensures (worlds + later)[|events + more|] == After(net, worlds[|events|], more).value
    decreases |more|
  {
    if more == [] {
      later := [];
      assert events + more == events && worlds + later == worlds;
    } else {
      var n := |more| - 1;
      AfterSplits(net, worlds[|events|], more);
      var earlier := RunExtends(net, events, worlds, more[..n]);
      var w := After(net, worlds[|events|], more[..n]).value;
      RunGoesOn(net, events + more[..n], worlds + earlier, w, more[n]);
      later := earlier + [System.Next(net, w, more[n])];
      ConcatAssociates(worlds, earlier, [System.Next(net, w, more[n])]);
      ConcatAssociates(events, more[..n], [more[n]]);
      assert more == more[..n] + [more[n]];
    }
  }

  // ----- The work in flight can be finished -----

  /** What is known of a reachable world. */
  ghost predicate Good(net: Net, w: World) {
    P.Inv(net.setup, w.pipeline) && Linked(net, w.pipeline, w.links, w.current)
  }

  lemma RunsAreGood(net: Net, events: seq<System.Event>, worlds: seq<World>, i: nat)
    requires JsonLaw(net.dumps, net.loads) && System.IsRun(net, events, worlds) && i <= |events|
    ensures Good(net, worlds[i])
  {
    RunsKeepPipelineInv(net, events, worlds, i);
    RunsKeepLinked(net, events, worlds, i);
  }

  lemma StaysGood(net: Net, w: World, e: System.Event)
    requires JsonLaw(net.dumps, net.loads) && Good(net, w) && System.Enabled(net, w, e)
    ensures Good(net, System.Next(net, w, e))
  {
    P.NotYetFinished(w.pipeline);
    NextKeepsLinked(net, w, e);
    NextKeepsPipelineInv(net, w, e);
  }

  /** An event by which the pipeline takes an action: what A waits for may always break off. */
  function EventFor(a: P.Action): System.Event {
    match a
    case SessionOpens => OpenLink("")
    case SendReturns(_) => WriteFails(Broken)
    case _ => Local(a)
  }

  lemma EventIsEnabled(net: Net, w: World, a: P.Action)
    requires Good(net, w) && P.Enabled(net.setup, w.pipeline, a)
    ensures System.Enabled(net, w, EventFor(a))
  {
    assert CurrentLink(w.pipeline, w.links, w.current);
  }

  lemma EventActs(net: Net, w: World, a: P.Action) returns (a': P.Action)
    requires System.Enabled(net, w, EventFor(a)) && !a.Extract?
    ensures P.Enabled(net.setup, w.pipeline, a') && !a'.Extract?
    ensures System.Next(net, w, EventFor(a)).pipeline == P.Apply(net.setup, w.pipeline, a')
  {
    RefinesPipeline(net, w, EventFor(a));
    a' := ActionOf(net, w, EventFor(a)).value;
  }

  lemma EventWorks(net: Net, w: World, a: P.Action)
    requires Good(net, w) && P.Enabled(net.setup, w.pipeline, a) && !a.Extract?
    requires System.Enabled(net, w, EventFor(a))
    ensures var s' := System.Next(net, w, EventFor(a)).pipeline;
            R.Work(net.setup, s') < R.Work(net.setup, w.pipeline) && s'.created == w.pipeline.created
  {
    var a' := EventActs(net, w, a);
    R.ActionWorks(net.setup, w.pipeline, a');
    R.OnlyExtractCreates(net.setup, w.pipeline, a');
  }

  lemma {:induction false} WorldCanFinish(net: Net, w: World, sign: seq<byte> -> seq<byte>)
    returns (more: seq<System.Event>, w': World)
    requires JsonLaw(net.dumps, net.loads) && Good(net, w)
    ensures After(net, w, more) == Some(w') && P.InFlight(w'.pipeline) == 0
    ensures w'.pipeline.created == w.pipeline.created
    decreases R.Work(net.setup, w.pipeline)
  {
    R.WorkIsNatural(net.setup, w.pipeline);
    if P.InFlight(w.pipeline) <= 0 {
      more, w' := [], w;
    } else {
      var a := R.SomeWorkerCanAct(net.setup, w.pipeline, sign);
      var e := EventFor(a);
      EventIsEnabled(net, w, a);
      EventWorks(net, w, a);
      StaysGood(net, w, e);
      var next := System.Next(net, w, e);
      var rest;
      R.WorkIsNatural(net.setup, next.pipeline);
      rest, w' := WorldCanFinish(net, next, sign);
      AfterOne(net, w, e);
      AfterConcat(net, w, [e], next, rest);
      more := [e] + rest;
    }
  }

  /** Every run can be continued, without new events at gateway A, until nothing is in flight. */
  lemma RunsCanFinish(net: Net, events: seq<System.Event>, worlds: seq<World>, sign: seq<byte> -> seq<byte>)
    returns (more: seq<System.Event>, later: seq<World>, w: World)
    requires JsonLaw(net.dumps, net.loads) && System.IsRun(net, events, worlds)
    ensures System.IsRun(net, events + more, worlds + later) && (worlds + later)[|events + more|] == w
    ensures P.InFlight(w.pipeline) == 0 && w.pipeline.created == worlds[|events|].pipeline.created
  {
    RunsAreGood(net, events, worlds, |events|);
    more, w := WorldCanFinish(net, worlds[|events|], sign);
    later := RunExtends(net, events, worlds, more);
  }

  // ----- A permit can be had -----

  /** The world with another link in the k-th place. */
  function With(w: World, k: nat, l: Link): World
    requires k < |w.links|
  {
    w.(links := w.links[k := l])
  }

  lemma {:induction false} SomeHolder(links: seq<Link>) returns (k: nat)
    requires Holders(links) > 0
    ensures k < |links| && links[k].slot.Holding?
  {
    var n := |links| - 1;
    if links[n].slot.Holding? {
      k := n;
    } else {
      k := SomeHolder(links[..n]);
    }
  }

  lemma ProceedOnce(net: Net, w: World, k: nat, input: Input)
    requires k < |w.links| && w.links[k].slot.Holding? && !input.Data?
    ensures After(net, w, [Proceeds(k, input)]) ==
            Some(With(w, k, StepLink(net, w.links[k], input)))
  {
    AfterOne(net, w, Proceeds(k, input));
  }

  /** The inputs that let a handler come to its end. */
  function EndingInputs(c: Connection): seq<Input> {
    match c.phase
    case Reading => [Eof]
    case Ingesting(_, _) => [IngestReturned(false), DrainReturned]
    case Draining(_, _, _) => [DrainReturned]
    case Closed => []
  }

  lemma EndsInOne(g: Gateway, peer: string, c: Connection)
    requires c.phase.Reading? || c.phase.Draining?
    ensures Handler.Step(g, peer, c, EndingInputs(c)[0]).phase.Closed?
  {
  }

  lemma IngestAnswered(g: Gateway, peer: string, c: Connection)
    requires c.phase.Ingesting?
    ensures Handler.Step(g, peer, c, IngestReturned(false)).phase.Draining?
  {
    var id := c.phase.id;
    var done := c.(ingest := Some(false), trace := c.trace + [Ingested(c.phase.document, false)]);
    SendAnswers(done, id, TransactionGuard, NackOf(id, IngestFailed));
  }

  /** The links are those of before, but for how far their handlers came. */
  ghost predicate SameWork(w: World, w': World) {
    && w'.pipeline == w.pipeline && w'.current == w.current && |w'.links| == |w.links|
    && forall k :: 0 <= k < |w.links| ==> w'.links[k].owner == w.links[k].owner && w'.links[k].peer == w.links[k].peer
  }

  lemma HandlerCanClose(net: Net, w: World, k: nat) returns (more: seq<System.Event>, w': World)
    requires k < |w.links| && w.links[k].slot.Holding?
    ensures After(net, w, more) == Some(w') && SameWork(w, w') && w'.permits == w.permits
    ensures w'.links[k].slot.Holding? && w'.links[k].handler.phase.Closed?
  {
    var l := w.links[k];
    if l.handler.phase.Closed? {
      more, w' := [], w;
    } else if l.handler.phase.Ingesting? {
      IngestAnswered(net.gateway, l.peer, l.handler);
      ProceedOnce(net, w, k, IngestReturned(false));
      var c := Handler.Step(net.gateway, l.peer, l.handler, IngestReturned(false));
      var w1 := With(w, k, l.(handler := c));
      ProceedOnce(net, w1, k, DrainReturned);
      EndsInOne(net.gateway, l.peer, c);
      AfterConcat(net, w, [Proceeds(k, IngestReturned(false))], w1, [Proceeds(k, DrainReturned)]);
      more := [Proceeds(k, IngestReturned(false))] + [Proceeds(k, DrainReturned)];
      w' := With(w1, k, l.(handler := Handler.Step(net.gateway, l.peer, c, DrainReturned)));
    } else {
      var input := EndingInputs(l.handler)[0];
      EndsInOne(net.gateway, l.peer, l.handler);
      ProceedOnce(net, w, k, input);
      more := [Proceeds(k, input)];
      w' := With(w, k, l.(handler := Handler.Step(net.gateway, l.peer, l.handler, input)));
    }
  }

  /** If the semaphore was created with a permit, one can be had: some handler can be brought to its end. */
  lemma PermitCanBeHad(net: Net, w: World) returns (more: seq<System.Event>, w': World)
    requires w.permits + Holders(w.links) == net.maxConcurrent > 0
    ensures After(net, w, more) == Some(w') && SameWork(w, w') && w'.permits > 0
  {
    if w.permits > 0 {
      more, w' := [], w;
    } else {
      var k := SomeHolder(w.links);
      var closing, w1 := HandlerCanClose(net, w, k);
      AfterOne(net, w1, Release(k));
      AfterConcat(net, w, closing, w1, [Release(k)]);
      more := closing + [Release(k)];
      w' := System.Next(net, w1, Release(k));
    }
  }

  // ----- An attempt can be acknowledged -----

  /** A frame of which only a part has arrived is not decided yet. */
  lemma PartNeedsMore(payload: seq<byte>, frame: seq<byte>, n: nat)
    requires EncodeFrame(CAP, SignedBundle, payload) == Ok(frame) && n < |frame|
    ensures DecodeFrameStream(CAP, frame[..n]) == Ok(NeedMore)
  {
    DecodeEncoded(CAP, SignedBundle, payload, []);
    DecodeStable(CAP, frame[..n], frame[n..]);
    assert frame[..n] + frame[n..] == frame && frame + [] == frame;
  }

  /** The link on which `frame` was sent, with `n` bytes of it read. */
  function Receiving(tx: Transaction, peer: string, frame: seq<byte>, n: nat): Link
    requires n <= |frame|
  {
    Link(Some(tx), peer, frame, n, Holding, START.(buffer := frame[..n]))
  }

  /** The link after its next `size` bytes have arrived. */
  ghost predicate TakesIn(net: Net, l: Link, size: nat, l': Link)
    requires l.delivered + size <= |l.sent|
  {
    forall chunk :: chunk == l.sent[l.delivered..l.delivered + size] ==>
                      l' == StepLink(net, l.(delivered := l.delivered + size), Data(chunk))
  }

  lemma ArriveNext(net: Net, w: World, k: nat, l: Link, size: nat, l': Link)
    requires k < |w.links| && w.links[k] == l && l.slot.Holding? && l.handler.phase.Reading?
    requires 1 <= size <= READ_SIZE && l.delivered + size <= |l.sent| && TakesIn(net, l, size, l')
    ensures After(net, w, [Arrive(k, size)]) == Some(With(w, k, l'))
  {
    AfterOne(net, w, Arrive(k, size));
  }

  /** A read that leaves the frame incomplete only lengthens the buffer. */
  lemma BufferGrows(g: Gateway, peer: string, buffer: seq<byte>, chunk: seq<byte>)
    requires DecodeFrameStream(CAP, buffer + chunk) == Ok(NeedMore)
    ensures Handler.Step(g, peer, START.(buffer := buffer), Data(chunk)) == START.(buffer := buffer + chunk)
  {
  }

  lemma PartArrives(net: Net, tx: Transaction, peer: string, payload: seq<byte>, frame: seq<byte>, n: nat, size: nat)
    requires EncodeFrame(CAP, SignedBundle, payload) == Ok(frame) && n + size < |frame|
    ensures TakesIn(net, Receiving(tx, peer, frame, n), size, Receiving(tx, peer, frame, n + size))
  {
    PartNeedsMore(payload, frame, n + size);
    Lengthened(frame, n, size);
    BufferGrows(net.gateway, peer, frame[..n], frame[n..n + size]);
  }

  /** What has to hold for an attempt to be acknowledged: B would admit its payload, and can frame the ACK. */
  ghost predicate Admissible(net: Net, tx: Transaction, peer: string, payload: seq<byte>) {
    && ToBytes(EnvelopeOf(tx)) == Ok(payload) && |payload| <= CAP
    && Examine(net.gateway, peer, payload).verdict.Admit? && Fits(AckOf(tx.id))
  }

  /** B has the whole frame, admits its payload and waits for the ingestor. */
  predicate IsAdmitted(l: Link, tx: Transaction) {
    && l.slot.Holding? && l.handler.phase.Ingesting? && l.handler.phase.id == tx.id && l.handler.writes == []
  }

  lemma FrameIsProcessed(g: Gateway, peer: string, buffer: seq<byte>, chunk: seq<byte>, payload: seq<byte>)
    requires DecodeFrameStream(CAP, buffer + chunk) == Ok(Frame(SignedBundle, payload, []))
    ensures Handler.Step(g, peer, START.(buffer := buffer), Data(chunk)) ==
            Process(g, peer, START.(buffer := buffer + chunk), payload)
  {
  }

  lemma AdmittedIsIngesting(g: Gateway, peer: string, c: Connection, payload: seq<byte>)
    requires Examine(g, peer, payload).verdict.Admit? && c.writes == []
    ensures var c' := Process(g, peer, c, payload);
            c'.phase.Ingesting? && c'.phase.id == Examine(g, peer, payload).id && c'.writes == []
  {
  }

  lemma RestArrives(net: Net, tx: Transaction, peer: string, payload: seq<byte>, frame: seq<byte>, n: nat, size: nat)
    returns (l: Link)
    requires Admissible(net, tx, peer, payload)
    requires EncodeFrame(CAP, SignedBundle, payload) == Ok(frame) && n + size == |frame|
    ensures TakesIn(net, Receiving(tx, peer, frame, n), size, l) && IsAdmitted(l, tx)
  {
    l := StepLink(net, Receiving(tx, peer, frame, n).(delivered := n + size), Data(frame[n..n + size]));
    DecodeEncoded(CAP, SignedBundle, payload, []);
    Lengthened(frame, n, size);
    assert frame[..n + size] == frame && frame + [] == frame;
    FrameIsProcessed(net.gateway, peer, frame[..n], frame[n..n + size], payload);
    AdmittedIsIngesting(net.gateway, peer, START.(buffer := frame), payload);
    EnvelopeRoundTrip(EnvelopeOf(tx));
    ExamTrace(net.gateway, peer, payload);
  }

  /** Two continuations that each change the same link. */
  lemma LinkGoesOn(net: Net, w: World, k: nat, first: seq<System.Event>, l: Link, second: seq<System.Event>, l': Link)
    requires k < |w.links| && After(net, w, first) == Some(With(w, k, l))
    requires After(net, With(w, k, l), second) == Some(With(With(w, k, l), k, l'))
    ensures After(net, w, first + second) == Some(With(w, k, l'))
  {
    AfterConcat(net, w, first, With(w, k, l), second);
    assert With(With(w, k, l), k, l') == With(w, k, l');
  }

  lemma MoreArrives(net: Net, w: World, k: nat, tx: Transaction, peer: string, payload: seq<byte>, frame: seq<byte>,
                    n: nat, size: nat)
    requires EncodeFrame(CAP, SignedBundle, payload) == Ok(frame) && 1 <= size <= READ_SIZE && n + size < |frame|
    requires k < |w.links| && w.links[k] == Receiving(tx, peer, frame, n)
    ensures After(net, w, [Arrive(k, size)]) == Some(With(w, k, Receiving(tx, peer, frame, n + size)))
  {
    PartArrives(net, tx, peer, payload, frame, n, size);
    ArriveNext(net, w, k, Receiving(tx, peer, frame, n), size, Receiving(tx, peer, frame, n + size));
  }

  lemma LastArrives(net: Net, w: World, k: nat, tx: Transaction, peer: string, payload: seq<byte>, frame: seq<byte>,
                    n: nat, size: nat)
    returns (l: Link)
    requires Admissible(net, tx, peer, payload)
    requires EncodeFrame(CAP, SignedBundle, payload) == Ok(frame) && 1 <= size <= READ_SIZE && n + size == |frame|
    requires k < |w.links| && w.links[k] == Receiving(tx, peer, frame, n)
    ensures After(net, w, [Arrive(k, size)]) == Some(With(w, k, l)) && IsAdmitted(l, tx)
  {
    l := RestArrives(net, tx, peer, payload, frame, n, size);
    ArriveNext(net, w, k, Receiving(tx, peer, frame, n), size, l);
  }

  /** All but the last read of the frame. */
  lemma {:induction false} MostArrives(net: Net, w: World, k: nat, tx: Transaction, peer: string, payload: seq<byte>,
                                       frame: seq<byte>, n: nat)
    returns (more: seq<System.Event>, n': nat)
    requires EncodeFrame(CAP, SignedBundle, payload) == Ok(frame) && n < |frame|
    requires k < |w.links| && w.links[k] == Receiving(tx, peer, frame, n)
    ensures n' < |frame| <= n' + READ_SIZE
    ensures After(net, w, more) == Some(With(w, k, Receiving(tx, peer, frame, n')))
    decreases |frame| - n
  {
    if |frame| - n <= READ_SIZE {
      more, n' := [], n;
      assert With(w, k, w.links[k]) == w;
    } else {
      var next := Receiving(tx, peer, frame, n + READ_SIZE);
      MoreArrives(net, w, k, tx, peer, payload, frame, n, READ_SIZE);
      var rest;
      rest, n' := MostArrives(net, With(w, k, next), k, tx, peer, payload, frame, n + READ_SIZE);
      LinkGoesOn(net, w, k, [Arrive(k, READ_SIZE)], next, rest, Receiving(tx, peer, frame, n'));
      more := [Arrive(k, READ_SIZE)] + rest;
    }
  }

  lemma RestOfFrame(net: Net, w: World, k: nat, tx: Transaction, peer: string, payload: seq<byte>, frame: seq<byte>,
                    n: nat)
    returns (e: System.Event, l: Link)
    requires Admissible(net, tx, peer, payload)
    requires EncodeFrame(CAP, SignedBundle, payload) == Ok(frame) && n < |frame| <= n + READ_SIZE
    requires k < |w.links| && w.links[k] == Receiving(tx, peer, frame, n)
    ensures After(net, w, [e]) == Some(With(w, k, l)) && IsAdmitted(l, tx)
  {
    l := LastArrives(net, w, k, tx, peer, payload, frame, n, |frame| - n);
    e := Arrive(k, |frame| - n);
  }

  lemma FrameArrives(net: Net, w: World, k: nat, tx: Transaction, peer: string, payload: seq<byte>, frame: seq<byte>)
    returns (more: seq<System.Event>, l: Link)
    requires Admissible(net, tx, peer, payload)
    requires EncodeFrame(CAP, SignedBundle, payload) == Ok(frame) && frame != []
    requires k < |w.links| && w.links[k] == Receiving(tx, peer, frame, 0)
    ensures After(net, w, more) == Some(With(w, k, l)) && IsAdmitted(l, tx)
  {
    var most, n := MostArrives(net, w, k, tx, peer, payload, frame, 0);
    var last;
    last, l := RestOfFrame(net, With(w, k, Receiving(tx, peer, frame, n)), k, tx, peer, payload, frame, n);
    LinkGoesOn(net, w, k, most, Receiving(tx, peer, frame, n), [last], l);
    more := most + [last];
  }

  lemma AdmissibleFrame(net: Net, tx: Transaction, peer: string, payload: seq<byte>) returns (frame: seq<byte>)
    requires Admissible(net, tx, peer, payload)
    ensures EncodeFrame(CAP, SignedBundle, payload) == Ok(frame) && BytesOf(tx) == frame && frame != []
  {
    frame := [TypeByte(SignedBundle)] + PackU32(|payload|) + payload;
    assert FrameOf(tx) == Some(frame) && |frame| >= 1;
  }

  /** After the ingestor returned true the ACK is written. */
  lemma AckIsWritten(g: Gateway, peer: string, c: Connection)
    requires c.phase.Ingesting? && c.writes == [] && Fits(AckOf(c.phase.id))
    ensures Handler.Step(g, peer, c, IngestReturned(true)).writes == [AckOf(c.phase.id)]
  {
  }

  /** A reads the ACK to its end and marks the transaction ACKED. */
  lemma AckIsRead(net: Net, w: World, k: nat, tx: Transaction) returns (e: System.Event)
    requires JsonLaw(net.dumps, net.loads) && Fits(AckOf(tx.id))
    requires w.current == Some(k) && k < |w.links| && w.links[k].handler.writes == [AckOf(tx.id)]
    requires w.pipeline.sender == Some(P.Hand(tx, P.Waiting))
    ensures System.Enabled(net, w, e)
    ensures System.Next(net, w, e).pipeline == P.Finish(w.pipeline, tx.(state := Acked))
  {
    var r := AckOf(tx.id);
    var size := |FrameBytes(net.dumps, r)|;
    e := ReadReply(size, Broken);
    var rest := OutputStartsWithFirst(net.dumps, [r]);
    FirstReadIsMeaning(net.dumps, net.loads, tx.id, [r], size, Broken);
    ReplyNext(net, w, size, Broken);
  }

  lemma SessionOpened(net: Net, w: World, tx: Transaction, peer: string)
    requires w.pipeline.sender == Some(P.Hand(tx, P.Opening))
    ensures After(net, w, [OpenLink(peer)]) ==
            Some(w.(pipeline := w.pipeline.(sender := Some(P.Hand(tx, P.Waiting))),
                    links := w.links + [Link(Some(tx), peer, BytesOf(tx), 0, Queued, START)],
                    current := Some(|w.links|)))
  {
    AfterOne(net, w, OpenLink(peer));
  }

  lemma PermitTaken(net: Net, w: World, k: nat)
    requires k < |w.links| && w.links[k].slot.Queued? && w.permits > 0
    ensures After(net, w, [Acquire(k)]) ==
            Some(With(w, k, w.links[k].(slot := Holding)).(permits := w.permits - 1))
  {
    AfterOne(net, w, Acquire(k));
  }

  /** A opens a session and B lets it in. */
  lemma LetIn(net: Net, w: World, tx: Transaction, peer: string) returns (more: seq<System.Event>, w': World)
    requires w.pipeline.sender == Some(P.Hand(tx, P.Opening)) && w.permits > 0
    ensures After(net, w, more) == Some(w')
    ensures w'.pipeline == w.pipeline.(sender := Some(P.Hand(tx, P.Waiting)))
    ensures w'.current == Some(|w.links|) && |w'.links| == |w.links| + 1
    ensures w'.links[|w.links|] == Receiving(tx, peer, BytesOf(tx), 0)
  {
    var k := |w.links|;
    var l := Link(Some(tx), peer, BytesOf(tx), 0, Queued, START);
    SessionOpened(net, w, tx, peer);
    var w1 := w.(pipeline := w.pipeline.(sender := Some(P.Hand(tx, P.Waiting))), links := w.links + [l],
                 current := Some(k));
    PermitTaken(net, w1, k);
    w' := With(w1, k, l.(slot := Holding)).(permits := w.permits - 1);
    AfterConcat(net, w, [OpenLink(peer)], w1, [Acquire(k)]);
    more := [OpenLink(peer)] + [Acquire(k)];
  }

  /** B ingests and acknowledges what arrived, and A reads it. */
  lemma IngestedAndRead(net: Net, w: World, k: nat, tx: Transaction)
    returns (more: seq<System.Event>, w': World)
    requires JsonLaw(net.dumps, net.loads) && Fits(AckOf(tx.id))
    requires w.current == Some(k) && k < |w.links| && w.pipeline.sender == Some(P.Hand(tx, P.Waiting))
    requires IsAdmitted(w.links[k], tx)
    ensures After(net, w, more) == Some(w') && w'.pipeline == P.Finish(w.pipeline, tx.(state := Acked))
  {
    var l := w.links[k];
    var c := Handler.Step(net.gateway, l.peer, l.handler, IngestReturned(true));
    AckIsWritten(net.gateway, l.peer, l.handler);
    ProceedOnce(net, w, k, IngestReturned(true));
    var w1 := With(w, k, l.(handler := c));
    var e := AckIsRead(net, w1, k, tx);
    AfterOne(net, w1, e);
    AfterConcat(net, w, [Proceeds(k, IngestReturned(true))], w1, [e]);
    more := [Proceeds(k, IngestReturned(true))] + [e];
    w' := System.Next(net, w1, e);
  }

  lemma AttemptCanBeAcked(net: Net, w: World, tx: Transaction, peer: string, payload: seq<byte>)
    returns (more: seq<System.Event>, w': World)
    requires JsonLaw(net.dumps, net.loads) && Admissible(net, tx, peer, payload)
    requires w.pipeline.sender == Some(P.Hand(tx, P.Opening)) && w.permits > 0
    ensures After(net, w, more) == Some(w') && w'.pipeline == P.Finish(w.pipeline, tx.(state := Acked))
  {
    var k := |w.links|;
    var frame := AdmissibleFrame(net, tx, peer, payload);
    var opening, w1 := LetIn(net, w, tx, peer);
    var arriving, l := FrameArrives(net, w1, k, tx, peer, payload, frame);
    var w2 := With(w1, k, l);
    var ending;
    ending, w' := IngestedAndRead(net, w2, k, tx);
    AfterConcat(net, w, opening, w1, arriving);
    AfterConcat(net, w, opening + arriving, w2, ending);
    more := opening + arriving + ending;
  }

  /**
   * An attempt can succeed: whenever A is about to open a session for a transaction whose payload B would admit,
   * and B's semaphore was created with a permit, the run can be continued until the transaction is ACKED.
   */
  lemma RunsCanAck(net: Net, events: seq<System.Event>, worlds: seq<World>, tx: Transaction, peer: string,
                   payload: seq<byte>)
    returns (more: seq<System.Event>, later: seq<World>, w: World)
    requires JsonLaw(net.dumps, net.loads) && System.IsRun(net, events, worlds) && net.maxConcurrent > 0
    requires worlds[|events|].pipeline.sender == Some(P.Hand(tx, P.Opening)) && Admissible(net, tx, peer, payload)
    ensures System.IsRun(net, events + more, worlds + later) && (worlds + later)[|events + more|] == w
    ensures w.pipeline == P.Finish(worlds[|events|].pipeline, tx.(state := Acked))
  {
    PermitsAreConserved(net, events, worlds, |events|);
    var freeing, w1 := PermitCanBeHad(net, worlds[|events|]);
    var acking;
    acking, w := AttemptCanBeAcked(net, w1, tx, peer, payload);
    AfterConcat(net, worlds[|events|], freeing, w1, acking);
    more := freeing + acking;
    later := RunExtends(net, events, worlds, more);
  }

  // ----- A run that ends with an ACK -----

  /** Actions that are not part of an attempt are events as they are. */
  function Locals(actions: seq<P.Action>): seq<System.Event> {
    seq(|actions|, i requires 0 <= i < |actions| => Local(actions[i]))
  }

  predicate AreLocal(actions: seq<P.Action>) {
    forall i :: 0 <= i < |actions| ==> !actions[i].SessionOpens? && !actions[i].SendReturns?
  }

  lemma {:induction false} LocalRun(net: Net, w: World, actions: seq<P.Action>)
    requires AreLocal(actions) && P.After(net.setup, w.pipeline, actions).Some?
    ensures After(net, w, Locals(actions)) == Some(w.(pipeline := P.After(net.setup, w.pipeline, actions).value))
  {
    if actions == [] {
      assert Locals(actions) == [];
    } else {
      var n := |actions| - 1;
      LocalRun(net, w, actions[..n]);
      assert Locals(actions) == Locals(actions[..n]) + [Local(actions[n])];
      AfterLast(net, w, Locals(actions[..n]), Local(actions[n]));
    }
  }

  lemma ComesToPolicy(setup: P.Setup, tx: Transaction, signature: seq<byte>)
    returns (actions: seq<P.Action>, s: P.State)
    requires P.Fresh(tx) && setup.isSignature(setup.compress(tx.rawJson), signature)
    ensures AreLocal(actions) && P.After(setup, P.INITIAL, actions) == Some(s)
    ensures s == P.INITIAL.(created := s.created, signed := [P.SignedBy(setup, tx, signature)])
  {
    P.ArrivesOne(setup, P.INITIAL, tx);
    var s1 := P.INITIAL.(created := P.INITIAL.created + [tx], extracted := P.INITIAL.extracted + [tx]);
    assert s1.extracted == [tx];
    P.SignsOne(setup, s1, tx, signature);
    var first, second := [P.Extract(tx), P.ExtractorPut], [P.SignerTake(signature), P.SignerPut];
    P.AfterConcat(setup, P.INITIAL, first, s1, second);
    actions := first + second;
    s := s1.(extracted := [], signed := s1.signed + [P.SignedBy(setup, tx, signature)]);
    assert s.signed == [P.SignedBy(setup, tx, signature)];
  }

  lemma ComesToQueue(setup: P.Setup, s: P.State, tx: Transaction) returns (s': P.State)
    requires s == P.INITIAL.(created := s.created, signed := [tx]) && P.Permitted(setup, tx)
    ensures P.After(setup, s, [P.PepTake, P.PepPut]) == Some(s')
    ensures s' == P.INITIAL.(created := s.created, outgoing := [tx.(state := PolicyApproved)])
  {
    P.ApprovesOne(setup, s, tx);
    s' := s.(signed := [], outgoing := s.outgoing + [tx.(state := PolicyApproved)]);
    assert s'.outgoing == [tx.(state := PolicyApproved)];
  }

  lemma Begins(setup: P.Setup, s: P.State, tx: Transaction) returns (s': P.State)
    requires s == P.INITIAL.(created := s.created, outgoing := [tx]) && tx.retryCount == 0
    requires setup.routing(tx.recipientId).Route? && setup.maxAttempts > 0
    ensures P.Enabled(setup, s, P.SenderTake) && P.Apply(setup, s, P.SenderTake) == s'
    ensures s'.sender == Some(P.Hand(P.Attempting(tx), P.Opening)) && s'.finished == []
  {
    s' := P.Apply(setup, s, P.SenderTake);
  }

  /** A transaction that can be signed, is permitted and has a route comes to its first attempt. */
  lemma ComesToAttempt(setup: P.Setup, tx: Transaction, signature: seq<byte>)
    returns (actions: seq<P.Action>, s: P.State, tx': Transaction)
    requires P.Fresh(tx) && setup.isSignature(setup.compress(tx.rawJson), signature)
    requires P.Permitted(setup, tx) && setup.routing(tx.recipientId).Route? && setup.maxAttempts > 0
    ensures AreLocal(actions) && P.After(setup, P.INITIAL, actions) == Some(s)
    ensures s.sender == Some(P.Hand(tx', P.Opening)) && s.finished == []
    ensures tx' == P.SignedBy(setup, tx, signature).(state := Sending, retryCount := 1)
  {
    var signed := P.SignedBy(setup, tx, signature);
    var first, s2 := ComesToPolicy(setup, tx, signature);
    var s3 := ComesToQueue(setup, s2, signed);
    s := Begins(setup, s3, signed.(state := PolicyApproved));
    P.AfterConcat(setup, P.INITIAL, first, s2, [P.PepTake, P.PepPut]);
    P.AfterOneMore(setup, P.INITIAL, first + [P.PepTake, P.PepPut], s3, P.SenderTake);
    actions := first + [P.PepTake, P.PepPut] + [P.SenderTake];
    tx' := P.Attempting(signed.(state := PolicyApproved));
  }

  lemma FirstAttempt(net: Net, tx: Transaction, signature: seq<byte>)
    returns (events: seq<System.Event>, worlds: seq<World>)
    requires P.Fresh(tx) && net.setup.isSignature(net.setup.compress(tx.rawJson), signature)
    requires P.Permitted(net.setup, tx) && net.setup.routing(tx.recipientId).Route? && net.setup.maxAttempts > 0
    ensures System.IsRun(net, events, worlds) && worlds[|events|].pipeline.finished == []
    ensures worlds[|events|].pipeline.sender ==
            Some(P.Hand(P.SignedBy(net.setup, tx, signature).(state := Sending, retryCount := 1), P.Opening))
  {
    var actions, s, tx' := ComesToAttempt(net.setup, tx, signature);
    events := Locals(actions);
    LocalRun(net, Initial(net), actions);
    var later := RunExtends(net, [], [Initial(net)], events);
    worlds := [Initial(net)] + later;
    assert [] + events == events;
  }

  /** The state and the attempts are not part of the envelope. */
  lemma SameEnvelope(net: Net, tx: Transaction, tx': Transaction, peer: string, payload: seq<byte>)
    requires Admissible(net, tx, peer, payload) && tx' == tx.(state := tx'.state, retryCount := tx'.retryCount)
    ensures Admissible(net, tx', peer, payload)
  {
  }

  lemma AckFollows(net: Net, past: seq<System.Event>, before: seq<World>, signed: Transaction, peer: string,
                   payload: seq<byte>)
    returns (more: seq<System.Event>, later: seq<World>, w: World)
    requires JsonLaw(net.dumps, net.loads) && System.IsRun(net, past, before) && net.maxConcurrent > 0
    requires before[|past|].pipeline.sender == Some(P.Hand(signed.(state := Sending, retryCount := 1), P.Opening))
    requires Admissible(net, signed, peer, payload)
    ensures System.IsRun(net, past + more, before + later) && (before + later)[|past + more|] == w
    ensures w.pipeline == P.Finish(before[|past|].pipeline, signed.(state := Acked, retryCount := 1))
  {
    var sending := signed.(state := Sending, retryCount := 1);
    SameEnvelope(net, signed, sending, peer, payload);
    more, later, w := RunsCanAck(net, past, before, sending, peer, payload);
  }

  /** There is a run in which a transaction that A can sign and send and B would admit is ACKED. */
  lemma AckedRunExists(net: Net, tx: Transaction, signature: seq<byte>, peer: string, payload: seq<byte>)
    returns (events: seq<System.Event>, worlds: seq<World>, tx': Transaction)
    requires JsonLaw(net.dumps, net.loads) && net.maxConcurrent > 0
    requires P.Fresh(tx) && net.setup.isSignature(net.setup.compress(tx.rawJson), signature)
    requires P.Permitted(net.setup, tx) && net.setup.routing(tx.recipientId).Route? && net.setup.maxAttempts > 0
    requires Admissible(net, P.SignedBy(net.setup, tx, signature), peer, payload)
    ensures System.IsRun(net, events, worlds)
    ensures worlds[|events|].pipeline.finished == [tx'] && tx'.id == tx.id && tx'.state.Acked?
  {
    var signed := P.SignedBy(net.setup, tx, signature);
    var past, before := FirstAttempt(net, tx, signature);
    var more, later, w := AckFollows(net, past, before, signed, peer, payload);
    events, worlds, tx' := past + more, before + later, signed.(state := Acked, retryCount := 1);
    assert [] + [tx'] == [tx'];
  }
}

/** The deployed policies with stand-ins for the foreign libraries: a system in which a transaction is ACKED. */
module Deployment {
  import opened Basics
  import opened Envelope
  import opened Responses
  import opened Gates
  import opened Exchange
  import opened Transmission
  import opened System
  import InboundPep
  import OutboundPep
  import TrustStore
  import Json
  import Witnesses
  import Progress
  import P = Pipeline

  /** The stand-ins: no compression, and a signature of one byte. */
  function DeployedSetup(): P.Setup {
    P.Setup(P.Limits(50, 50, 20), OutboundPep.Table(OutboundPep.DEPLOYED), (_: string) => Route, 3,
            (raw: seq<byte>) => raw, (_: seq<byte>, signature: seq<byte>) => signature == [1], "F")
  }

  function DeployedGateway(): Gateway {
    Gateway(
      TrustStore.View(map["RAW" := TrustStore.Agency(Some("P"), Some("K"), Some("path"))], {}),
      InboundPep.DEPLOYED,
      (_: seq<byte>, signature: seq<byte>, _: string) => signature == [1],
      (data: seq<byte>) => Some(data),
      (data: seq<byte>) => Some(StixDocument(Some("bundle"), true, data)))
  }

  function DeployedNet(): Net {
    Net(DeployedSetup(), DeployedGateway(), Body, Json.LoadsBody, 1)
  }

  /** An event without marking, so AMBER, from RAW to NIA. */
  function Amber(): Transaction {
    Transaction("1", "RAW", "NIA", [], Tlp.Amber, [7], [], [], "", 0, Validated, 0)
  }

  function Sent(): TransactionEnvelope {
    TransactionEnvelope("1", "RAW", "NIA", Tlp.Amber, [7], [1], "F", 0)
  }

  lemma SentIsSigned()
    ensures EnvelopeOf(P.SignedBy(DeployedSetup(), Amber(), [1])) == Sent()
  {
  }

  lemma AmberIsPermitted()
    ensures P.Fresh(Amber()) && P.Permitted(DeployedSetup(), Amber())
  {
    OutboundPep.LastRuleDecides(OutboundPep.DEPLOYED, Tlp.Amber, "NIA");
    assert OutboundPep.LastRuleFor(OutboundPep.DEPLOYED, 0, Tlp.Amber);
  }

  lemma SentIsAllowed()
    ensures InboundPep.Evaluate(InboundPep.DEPLOYED, "RAW", "NIA", TlpText(Tlp.Amber)).ExplicitAllow?
  {
    AmberIsPermitted();
    OutboundPep.DeployedTablesAgree(Tlp.Amber);
  }

  lemma SentIsAdmitted(payload: seq<byte>)
    requires FromBytes(payload) == Ok(Sent())
    ensures Examine(DeployedGateway(), "P", payload).verdict.Admit?
  {
    SentIsAllowed();
  }

  lemma SentTravels() returns (payload: seq<byte>)
    ensures ToBytes(Sent()) == Ok(payload) && |payload| <= CAP && FromBytes(payload) == Ok(Sent())
  {
    Witnesses.MessageAtMost(ToProto(Sent()).value);
    payload := Witnesses.Serializes(Sent());
  }

  /** In the deployed system there is a run that ends with the transaction ACKED. */
  lemma DeployedRunAcks() returns (events: seq<System.Event>, worlds: seq<World>, tx: Transaction)
    ensures JsonLaw(DeployedNet().dumps, DeployedNet().loads) && IsRun(DeployedNet(), events, worlds)
    ensures worlds[|events|].pipeline.finished == [tx] && tx.id == "1" && tx.state.Acked?
  {
    Json.JsonLawIsMet();
    var payload := SentTravels();
    SentIsSigned();
    SentIsAdmitted(payload);
    ShortIdsFit(AckOf("1"));
    AmberIsPermitted();
    events, worlds, tx := Progress.AckedRunExists(DeployedNet(), Amber(), [1], "P", payload);
  }
}
