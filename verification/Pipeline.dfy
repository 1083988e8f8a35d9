/** Order-preserving selections of a sequence. */
module Subsequences {
  /** `a` is `b` with some elements left out. */
  ghost predicate Subsequence<T>(a: seq<T>, b: seq<T>)
    decreases |b|
  {
    a == [] ||
    (b != [] &&
     var a', b' := |a| - 1, |b| - 1;
     if a[a'] == b[b'] then Subsequence(a[..a'], b[..b']) else Subsequence(a, b[..b']))
  }

  lemma {:induction false} DropLast<T>(a: seq<T>, b: seq<T>)
    requires Subsequence(a, b) && a != []
    ensures Subsequence(a[..|a| - 1], b)
    decreases |b|
  {
    var front, b' := a[..|a| - 1], b[..|b| - 1];
    if a[|a| - 1] != b[|b| - 1] {
      DropLast(a, b');
    }
    if front != [] && front[|front| - 1] == b[|b| - 1] {
      DropLast(front, b');
    }
  }

  lemma {:induction false} Remove<T>(a: seq<T>, i: nat, b: seq<T>)
    requires Subsequence(a, b) && i < |a|
    ensures Subsequence(a[..i] + a[i + 1..], b)
    decreases |b|
  {
    var last := |a| - 1;
    if i == last {
      assert a[..i] + a[i + 1..] == a[..last];
      DropLast(a, b);
    } else {
      var removed := a[..i] + a[i + 1..];
      assert removed[|removed| - 1] == a[last];
      if a[last] == b[|b| - 1] {
        Remove(a[..last], i, b[..|b| - 1]);
        assert removed[..|removed| - 1] == a[..last][..i] + a[..last][i + 1..];
      } else {
        Remove(a, i, b[..|b| - 1]);
      }
    }
  }

  lemma Append<T>(a: seq<T>, b: seq<T>, x: T)
    requires Subsequence(a, b)
    ensures Subsequence(a + [x], b + [x])
  {
    assert (a + [x])[..|a|] == a && (b + [x])[..|b|] == b;
  }

  lemma {:induction false} Prefix<T>(a: seq<T>, k: nat, b: seq<T>)
    requires Subsequence(a, b) && k <= |a|
    ensures Subsequence(a[..k], b)
    decreases |a|
  {
    if k < |a| {
      DropLast(a, b);
      Prefix(a[..|a| - 1], k, b);
      assert a[..|a| - 1][..k] == a[..k];
    } else {
      assert a[..k] == a;
    }
  }
}

/**
 * Gateway A's pipeline: four coroutines joined by bounded queues. An action is what one coroutine does between
 * two awaits.
 */
module Pipeline {
  import opened Basics
  import opened Envelope
  import opened Exchange
  import opened DeadLetters
  import opened Transmission
  import opened Subsequences
  import OutboundPep

  /** Queue limits as `asyncio.Queue` reads them: zero or less means no limit. */
  datatype Limits = Limits(extracted: int, signed: int, outgoing: int)

  /** `isSignature(data, sig)`: the signer may return `sig` for `data` (signing is randomized). */
  datatype Setup = Setup(
    limits: Limits,
    policy: map<Tlp, set<string>>,
    routing: string -> Routing,
    maxAttempts: int,
    compress: seq<byte> -> seq<byte>,
    isSignature: (seq<byte>, seq<byte>) -> bool,
    fingerprint: string)

  datatype Stage = Opening | Waiting | Sleeping

  datatype Hand = Hand(tx: Transaction, stage: Stage)

  /**
   * The queues, the transaction each worker holds, and where transactions end: `finished` left the transmission
   * worker, `rejected` were refused by policy, `dropped` were lost to an exception. `created` is the history of
   * extraction.
   */
  datatype State = State(
    created: seq<Transaction>,
    extractor: Option<Transaction>, extracted: seq<Transaction>,
    signer: Option<Transaction>, signed: seq<Transaction>,
    pep: Option<Transaction>, outgoing: seq<Transaction>,
    sender: Option<Hand>,
    finished: seq<Transaction>, rejected: seq<Transaction>, dropped: seq<Transaction>,
    deadLetters: seq<Entry>)

  const INITIAL := State([], None, [], None, [], None, [], None, [], [], [], [])

  datatype Action =
    | Extract(tx: Transaction) | ExtractorPut
    | SignerTake(signature: seq<byte>) | SignerRaises | SignerPut
    | PepTake | PepRaises | PepPut
    | SenderTake | SessionFails | SessionOpens | SendReturns(result: SendResult) | Wake

  predicate HasRoom(queue: seq<Transaction>, limit: int) {
    limit <= 0 || |queue| < limit
  }

  function Ids(txs: seq<Transaction>): seq<string> {
    seq(|txs|, i requires 0 <= i < |txs| => txs[i].id)
  }

  predicate Enabled(setup: Setup, s: State, a: Action) {
    match a
    case Extract(tx) =>
      && s.extractor.None? && tx.id !in Ids(s.created)
      && tx.state.Validated? && tx.retryCount == 0 && tx.tlp == OutboundPep.MarkingOf(tx.tags)
    case ExtractorPut => s.extractor.Some? && HasRoom(s.extracted, setup.limits.extracted)
    case SignerTake(signature) =>
      s.signer.None? && s.extracted != [] && setup.isSignature(setup.compress(s.extracted[0].rawJson), signature)
    case SignerRaises => s.signer.None? && s.extracted != []
    case SignerPut => s.signer.Some? && HasRoom(s.signed, setup.limits.signed)
    case PepTake => s.pep.None? && s.signed != []
    case PepRaises => s.pep.None? && s.signed != []
    case PepPut => s.pep.Some? && HasRoom(s.outgoing, setup.limits.outgoing)
    case SenderTake => s.sender.None? && s.outgoing != []
    case SessionFails => s.sender.Some? && s.sender.value.stage.Opening?
    case SessionOpens => s.sender.Some? && s.sender.value.stage.Opening?
    case SendReturns(_) => s.sender.Some? && s.sender.value.stage.Waiting?
    case Wake => s.sender.Some? && s.sender.value.stage.Sleeping?
  }

  function SignedBy(setup: Setup, tx: Transaction, signature: seq<byte>): Transaction {
    tx.(compressed := setup.compress(tx.rawJson), signature := signature,
        signerCertFingerprint := setup.fingerprint, state := Signed)
  }

  function Attempting(tx: Transaction): Transaction {
    tx.(retryCount := tx.retryCount + 1, state := Sending)
  }

  function DeadLetter(s: State, tx: Transaction, reason: string): State {
    s.(deadLetters := s.deadLetters + [Entry(tx.id, reason, tx.state)])
  }

  function Finish(s: State, tx: Transaction): State {
    s.(sender := None, finished := s.finished + [tx])
  }

  /** What follows an attempt that turned out as `attempt`. */
  function Conclude(setup: Setup, s: State, tx: Transaction, attempt: Attempt): State {
    match AfterAttempt(setup.maxAttempts, tx.retryCount, attempt)
    case Again => s.(sender := Some(Hand(tx, Sleeping)))
    case Done(state, None) => Finish(s, tx.(state := state))
    case Done(state, Some(reason)) => DeadLetter(Finish(s, tx.(state := state)), tx.(state := state), reason)
  }

  /** The transmission worker takes a transaction: routing, then the head of the retry loop. */
  function Take(setup: Setup, s: State, tx: Transaction): State {
    match setup.routing(tx.recipientId)
    case NoRoute => DeadLetter(Finish(s, tx.(state := Failed)), tx.(state := Failed), "UNKNOWN_RECIPIENT_ROUTING")
    case Misconfigured => Finish(s, tx)
    case Route =>
      if tx.retryCount < setup.maxAttempts then s.(sender := Some(Hand(Attempting(tx), Opening))) else Finish(s, tx)
  }

  /** The policy stage: approve, or dead-letter with the policy's reason. */
  function Judge(setup: Setup, s: State, tx: Transaction): State {
    var verdict := OutboundPep.Authorize(setup.policy, tx.tlp, tx.recipientId);
    if verdict.Permitted? then s.(pep := Some(tx.(state := PolicyApproved)))
    else
      var refused := tx.(state := PolicyRejected);
      DeadLetter(s.(rejected := s.rejected + [refused]), refused, OutboundPep.ReasonCode(verdict))
  }

  function Apply(setup: Setup, s: State, a: Action): State
    requires Enabled(setup, s, a)
  {
    match a
    case Extract(tx) => s.(created := s.created + [tx], extractor := Some(tx))
    case ExtractorPut => s.(extractor := None, extracted := s.extracted + [s.extractor.value])
    case SignerTake(signature) =>
      s.(extracted := s.extracted[1..], signer := Some(SignedBy(setup, s.extracted[0], signature)))
    case SignerRaises => s.(extracted := s.extracted[1..], dropped := s.dropped + [s.extracted[0]])
    case SignerPut => s.(signer := None, signed := s.signed + [s.signer.value])
    case PepTake => Judge(setup, s.(signed := s.signed[1..]), s.signed[0])
    case PepRaises => s.(signed := s.signed[1..], dropped := s.dropped + [s.signed[0]])
    case PepPut => s.(pep := None, outgoing := s.outgoing + [s.pep.value])
    case SenderTake => Take(setup, s.(outgoing := s.outgoing[1..]), s.outgoing[0])
    case SessionFails => Conclude(setup, s, s.sender.value.tx, SessionFailed)
    case SessionOpens => s.(sender := Some(Hand(s.sender.value.tx, Waiting)))
    case SendReturns(result) => Conclude(setup, s, s.sender.value.tx, Answered(result))
    case Wake => s.(sender := Some(Hand(Attempting(s.sender.value.tx), Opening)))
  }

  // ----- The line of transactions, from the finished to the newest -----

  function IdOf(tx: Option<Transaction>): seq<string> {
    if tx.Some? then [tx.value.id] else []
  }

  function HeldId(hand: Option<Hand>): seq<string> {
    if hand.Some? then [hand.value.tx.id] else []
  }

  function Downstream(s: State): seq<string> {
    Ids(s.finished) + HeldId(s.sender) + Ids(s.outgoing)
  }

  function Midstream(s: State): seq<string> {
    IdOf(s.pep) + Ids(s.signed)
  }

  function Upstream(s: State): seq<string> {
    IdOf(s.signer) + Ids(s.extracted) + IdOf(s.extractor)
  }

  function Line(s: State): seq<string> {
    Downstream(s) + Midstream(s) + Upstream(s)
  }

  /** The transactions that left the line before transmission. */
  function Gone(s: State): multiset<string> {
    multiset(Ids(s.rejected)) + multiset(Ids(s.dropped))
  }

  /** Transactions that were created and have not come to an end. */
  function InFlight(s: State): int {
    |Line(s)| - |s.finished|
  }

  predicate Distinct(ids: seq<string>) {
    forall i, j :: 0 <= i < j < |ids| ==> ids[i] != ids[j]
  }

  /** Each id created is exactly once in the line or outside it, and the line keeps the order of creation. */
  ghost predicate Accounted(created: seq<string>, line: seq<string>, gone: multiset<string>) {
    && Distinct(created)
    && Subsequence(line, created)
    && multiset(created) == multiset(line) + gone
  }

  ghost predicate Conserved(s: State) {
    Accounted(Ids(s.created), Line(s), Gone(s))
  }

  lemma Enters(created: seq<string>, line: seq<string>, gone: multiset<string>, id: string)
    requires Accounted(created, line, gone) && id !in created
    ensures Accounted(created + [id], line + [id], gone)
  {
    Append(line, created, id);
  }

  lemma Leaves(created: seq<string>, before: seq<string>, id: string, after: seq<string>, gone: multiset<string>)
    requires Accounted(created, before + [id] + after, gone)
    ensures Accounted(created, before + after, gone + multiset{id})
  {
    var line := before + [id] + after;
    Remove(line, |before|, created);
    assert line[..|before|] == before && line[|before| + 1..] == after;
  }

  lemma IdsAppend(txs: seq<Transaction>, tx: Transaction)
    ensures Ids(txs + [tx]) == Ids(txs) + [tx.id]
  {
  }

  lemma IdsSplit(txs: seq<Transaction>)
    requires txs != []
    ensures Ids(txs) == [txs[0].id] + Ids(txs[1..])
  {
  }

  lemma ExtractLine(s: State, tx: Transaction)
    requires s.extractor.None?
    ensures var s' := s.(created := s.created + [tx], extractor := Some(tx));
            Line(s') == Line(s) + [tx.id] && Ids(s'.created) == Ids(s.created) + [tx.id]
  {
    var s' := s.(created := s.created + [tx], extractor := Some(tx));
    assert Upstream(s') == Upstream(s) + [tx.id];
  }

  lemma ExtractKeepsConserved(s: State, tx: Transaction)
    requires Conserved(s) && s.extractor.None? && tx.id !in Ids(s.created)
    ensures Conserved(s.(created := s.created + [tx], extractor := Some(tx)))
  {
    ExtractLine(s, tx);
    Enters(Ids(s.created), Line(s), Gone(s), tx.id);
  }

  /** Where in the line a transaction leaves. */
  ghost predicate LeftLine(s: State, s': State, before: seq<string>, id: string, after: seq<string>) {
    && s'.created == s.created
    && Line(s) == before + [id] + after && Line(s') == before + after
    && Gone(s') == Gone(s) + multiset{id}
  }

  lemma LeavingKeepsConserved(s: State, s': State, before: seq<string>, id: string, after: seq<string>)
    requires Conserved(s) && LeftLine(s, s', before, id, after)
    ensures Conserved(s')
  {
    Leaves(Ids(s.created), before, id, after, Gone(s));
  }

  lemma DroppedBySignerLine(s: State)
    requires s.extracted != [] && s.signer.None?
    ensures var s' := s.(extracted := s.extracted[1..], dropped := s.dropped + [s.extracted[0]]);
            LeftLine(s, s', Downstream(s) + Midstream(s), s.extracted[0].id, Upstream(s'))
  {
    var s' := s.(extracted := s.extracted[1..], dropped := s.dropped + [s.extracted[0]]);
    var id := s.extracted[0].id;
    IdsSplit(s.extracted);
    IdsAppend(s.dropped, s.extracted[0]);
    assert Upstream(s) == [id] + Upstream(s');
  }

  lemma DroppedBySigner(s: State)
    requires s.extracted != [] && Conserved(s) && s.signer.None?
    ensures Conserved(s.(extracted := s.extracted[1..], dropped := s.dropped + [s.extracted[0]]))
  {
    var s' := s.(extracted := s.extracted[1..], dropped := s.dropped + [s.extracted[0]]);
    DroppedBySignerLine(s);
    LeavingKeepsConserved(s, s', Downstream(s) + Midstream(s), s.extracted[0].id, Upstream(s'));
  }

  /** A transaction leaves the queue of signed ones, refused or lost. */
  lemma LeavesSignedLine(s: State, s': State)
    requires s.signed != [] && s.pep.None?
    requires s' == s.(signed := s.signed[1..],
                      rejected := s'.rejected, dropped := s'.dropped, deadLetters := s'.deadLetters)
    requires Gone(s') == Gone(s) + multiset{s.signed[0].id}
    ensures LeftLine(s, s', Downstream(s), s.signed[0].id, Midstream(s') + Upstream(s))
  {
    var id := s.signed[0].id;
    IdsSplit(s.signed);
    assert Midstream(s) == [id] + Midstream(s');
    assert Downstream(s') == Downstream(s) && Upstream(s') == Upstream(s);
  }

  lemma LeavesSigned(s: State, s': State)
    requires s.signed != [] && Conserved(s) && s.pep.None?
    requires s' == s.(signed := s.signed[1..],
                      rejected := s'.rejected, dropped := s'.dropped, deadLetters := s'.deadLetters)
    requires Gone(s') == Gone(s) + multiset{s.signed[0].id}
    ensures Conserved(s')
  {
    LeavesSignedLine(s, s');
    LeavingKeepsConserved(s, s', Downstream(s), s.signed[0].id, Midstream(s') + Upstream(s));
  }

  lemma PepRaisesKeepsConserved(s: State)
    requires s.signed != [] && Conserved(s) && s.pep.None?
    ensures Conserved(s.(signed := s.signed[1..], dropped := s.dropped + [s.signed[0]]))
  {
    var s' := s.(signed := s.signed[1..], dropped := s.dropped + [s.signed[0]]);
    IdsAppend(s.dropped, s.signed[0]);
    assert Gone(s') == Gone(s) + multiset{s.signed[0].id};
    LeavesSigned(s, s');
  }

  lemma ApprovedStaysInLine(s: State, s': State, tx: Transaction)
    requires s.signed != [] && s.pep.None? && tx.id == s.signed[0].id
    requires s' == s.(signed := s.signed[1..], pep := Some(tx))
    ensures Line(s') == Line(s)
  {
    IdsSplit(s.signed);
    assert Midstream(s') == Midstream(s);
  }

  lemma RefusedLeavesLine(s: State, s': State, tx: Transaction)
    requires s.signed != [] && s.pep.None? && Conserved(s) && tx.id == s.signed[0].id
    requires s' == s.(signed := s.signed[1..], rejected := s.rejected + [tx], deadLetters := s'.deadLetters)
    ensures Conserved(s')
  {
    IdsAppend(s.rejected, tx);
    assert Gone(s') == Gone(s) + multiset{tx.id};
    LeavesSigned(s, s');
  }

  lemma PepTakeKeepsConserved(setup: Setup, s: State)
    requires s.signed != [] && Conserved(s) && s.pep.None?
    ensures Conserved(Judge(setup, s.(signed := s.signed[1..]), s.signed[0]))
  {
    var s' := Judge(setup, s.(signed := s.signed[1..]), s.signed[0]);
    var tx := s.signed[0];
    if OutboundPep.Authorize(setup.policy, tx.tlp, tx.recipientId).Permitted? {
      ApprovedStaysInLine(s, s', tx.(state := PolicyApproved));
    } else {
      RefusedLeavesLine(s, s', tx.(state := PolicyRejected));
    }
  }

  lemma Regroup(before: seq<string>, middle: seq<string>, id: string, after: seq<string>)
    ensures before + (middle + [id]) + after == before + middle + ([id] + after)
  {
  }

  lemma HandedOnUpstream(setup: Setup, s: State, a: Action)
    requires Enabled(setup, s, a) && (a.ExtractorPut? || a.SignerTake?)
    ensures Line(Apply(setup, s, a)) == Line(s)
  {
    if a.ExtractorPut? {
      IdsAppend(s.extracted, s.extractor.value);
    } else {
      IdsSplit(s.extracted);
    }
    assert Upstream(Apply(setup, s, a)) == Upstream(s);
  }

  lemma HandedToPolicy(setup: Setup, s: State)
    requires Enabled(setup, s, SignerPut)
    ensures Line(Apply(setup, s, SignerPut)) == Line(s)
  {
    var s', id := Apply(setup, s, SignerPut), s.signer.value.id;
    IdsAppend(s.signed, s.signer.value);
    assert Midstream(s') == Midstream(s) + [id] && Upstream(s) == [id] + Upstream(s');
    Regroup(Downstream(s), Midstream(s), id, Upstream(s'));
  }

  lemma HandedToTransmission(setup: Setup, s: State)
    requires Enabled(setup, s, PepPut)
    ensures Line(Apply(setup, s, PepPut)) == Line(s)
  {
    var s', id := Apply(setup, s, PepPut), s.pep.value.id;
    IdsAppend(s.outgoing, s.pep.value);
    assert Downstream(s') == Downstream(s) + [id] && Midstream(s) == [id] + Midstream(s');
    ConcatAssociates(Downstream(s), [id], Midstream(s'));
  }

  /** A transaction handed on moves one place along the line. */
  lemma HandedOn(setup: Setup, s: State, a: Action)
    requires Enabled(setup, s, a) && (a.ExtractorPut? || a.SignerTake? || a.SignerPut? || a.PepPut?)
    ensures Line(Apply(setup, s, a)) == Line(s)
  {
    if a.SignerPut? {
      HandedToPolicy(setup, s);
    } else if a.PepPut? {
      HandedToTransmission(setup, s);
    } else {
      HandedOnUpstream(setup, s, a);
    }
  }

  lemma ConcludeKeepsLine(setup: Setup, s: State, tx: Transaction, attempt: Attempt)
    requires s.sender.Some? && s.sender.value.tx == tx
    ensures Downstream(Conclude(setup, s, tx, attempt)) == Downstream(s)
  {
    IdsAppend(s.finished, tx.(state := Acked));
    IdsAppend(s.finished, tx.(state := Failed));
  }

  lemma TakeKeepsLine(setup: Setup, s: State)
    requires s.sender.None? && s.outgoing != []
    ensures Downstream(Take(setup, s.(outgoing := s.outgoing[1..]), s.outgoing[0])) == Downstream(s)
  {
    var tx := s.outgoing[0];
    IdsSplit(s.outgoing);
    IdsAppend(s.finished, tx);
    IdsAppend(s.finished, tx.(state := Failed));
  }

  lemma SenderKeepsLine(setup: Setup, s: State, a: Action)
    requires Enabled(setup, s, a)
    requires a.SenderTake? || a.SessionFails? || a.SessionOpens? || a.SendReturns? || a.Wake?
    ensures Downstream(Apply(setup, s, a)) == Downstream(s)
  {
    match a
    case SenderTake => TakeKeepsLine(setup, s);
    case SessionFails => ConcludeKeepsLine(setup, s, s.sender.value.tx, SessionFailed);
    case SendReturns(result) => ConcludeKeepsLine(setup, s, s.sender.value.tx, Answered(result));
    case _ =>
  }

  /** What an action of the transmission worker leaves alone. */
  lemma SenderFrame(setup: Setup, s: State, a: Action)
    requires Enabled(setup, s, a)
    requires a.SenderTake? || a.SessionFails? || a.SessionOpens? || a.SendReturns? || a.Wake?
    ensures var s' := Apply(setup, s, a);
            && s'.created == s.created && s'.rejected == s.rejected && s'.dropped == s.dropped
            && s'.pep == s.pep && s'.signed == s.signed
            && s'.signer == s.signer && s'.extracted == s.extracted && s'.extractor == s.extractor
  {
  }

  lemma ApplyKeepsConserved(setup: Setup, s: State, a: Action)
    requires Enabled(setup, s, a) && Conserved(s)
    ensures Conserved(Apply(setup, s, a))
  {
    if a.Extract? {
      ExtractKeepsConserved(s, a.tx);
    } else if a.SignerRaises? {
      DroppedBySigner(s);
    } else if a.PepRaises? {
      PepRaisesKeepsConserved(s);
    } else if a.PepTake? {
      PepTakeKeepsConserved(setup, s);
    } else if a.ExtractorPut? || a.SignerTake? || a.SignerPut? || a.PepPut? {
      HandedOn(setup, s, a);
    } else {
      SenderKeepsLine(setup, s, a);
      SenderFrame(setup, s, a);
    }
  }

  // ----- What is known of a transaction by where it is -----

  predicate Fresh(tx: Transaction) {
    tx.state.Validated? && tx.retryCount == 0 && tx.tlp == OutboundPep.MarkingOf(tx.tags)
  }

  /** Marked by its tags, compressed, and then signed over exactly the compressed bundle. */
  predicate Prepared(setup: Setup, tx: Transaction) {
    && tx.tlp == OutboundPep.MarkingOf(tx.tags)
    && tx.compressed == setup.compress(tx.rawJson)
    && setup.isSignature(tx.compressed, tx.signature)
    && tx.signerCertFingerprint == setup.fingerprint
  }

  predicate Permitted(setup: Setup, tx: Transaction) {
    OutboundPep.Authorize(setup.policy, tx.tlp, tx.recipientId).Permitted?
  }

  predicate AwaitsPolicy(setup: Setup, tx: Transaction) {
    Prepared(setup, tx) && tx.state.Signed? && tx.retryCount == 0
  }

  predicate Approved(setup: Setup, tx: Transaction) {
    Prepared(setup, tx) && Permitted(setup, tx) && tx.state.PolicyApproved? && tx.retryCount == 0
  }

  predicate InTransmission(setup: Setup, hand: Hand) {
    && Prepared(setup, hand.tx) && Permitted(setup, hand.tx) && hand.tx.state.Sending?
    && setup.routing(hand.tx.recipientId).Route?
    && 1 <= hand.tx.retryCount <= setup.maxAttempts
    && (hand.stage.Sleeping? ==> hand.tx.retryCount < setup.maxAttempts)
  }

  /** No attempt is possible and none is recorded: a misconfigured recipient, or no attempts allowed. */
  predicate Unattempted(setup: Setup, tx: Transaction) {
    var routing := setup.routing(tx.recipientId);
    routing.Misconfigured? || (routing.Route? && setup.maxAttempts <= 0)
  }

  /** ACKED or FAILED after attempts, FAILED without a route, or given up without a record. */
  predicate Ended(setup: Setup, tx: Transaction) {
    && Prepared(setup, tx) && Permitted(setup, tx)
    && (match tx.state
        case Acked => setup.routing(tx.recipientId).Route? && 1 <= tx.retryCount <= setup.maxAttempts
        case Failed =>
          || (setup.routing(tx.recipientId).Route? && 1 <= tx.retryCount <= setup.maxAttempts)
          || (setup.routing(tx.recipientId).NoRoute? && tx.retryCount == 0)
        case PolicyApproved => tx.retryCount == 0 && Unattempted(setup, tx)
        case _ => false)
  }

  predicate Refused(setup: Setup, tx: Transaction) {
    Prepared(setup, tx) && !Permitted(setup, tx) && tx.state.PolicyRejected?
  }

  ghost predicate Placed(setup: Setup, s: State) {
    && (s.extractor.Some? ==> Fresh(s.extractor.value))
    && (forall i :: 0 <= i < |s.extracted| ==> Fresh(s.extracted[i]))
    && (s.signer.Some? ==> AwaitsPolicy(setup, s.signer.value))
    && (forall i :: 0 <= i < |s.signed| ==> AwaitsPolicy(setup, s.signed[i]))
    && (s.pep.Some? ==> Approved(setup, s.pep.value))
    && (forall i :: 0 <= i < |s.outgoing| ==> Approved(setup, s.outgoing[i]))
    && (s.sender.Some? ==> InTransmission(setup, s.sender.value))
    && (forall i :: 0 <= i < |s.finished| ==> Ended(setup, s.finished[i]))
    && (forall i :: 0 <= i < |s.rejected| ==> Refused(setup, s.rejected[i]))
  }

  lemma FinishKeepsPlaced(setup: Setup, s: State, tx: Transaction)
    requires Placed(setup, s) && Ended(setup, tx)
    ensures Placed(setup, Finish(s, tx))
  {
  }

  lemma HoldKeepsPlaced(setup: Setup, s: State, hand: Hand)
    requires Placed(setup, s) && InTransmission(setup, hand)
    ensures Placed(setup, s.(sender := Some(hand)))
  {
  }

  lemma LetterKeepsPlaced(setup: Setup, s: State, tx: Transaction, reason: string)
    requires Placed(setup, s)
    ensures Placed(setup, DeadLetter(s, tx, reason))
  {
  }

  lemma ConcludeKeepsPlaced(setup: Setup, s: State, attempt: Attempt)
    requires Placed(setup, s) && s.sender.Some?
    ensures Placed(setup, Conclude(setup, s, s.sender.value.tx, attempt))
  {
    var tx := s.sender.value.tx;
    match AfterAttempt(setup.maxAttempts, tx.retryCount, attempt)
    case Again => HoldKeepsPlaced(setup, s, Hand(tx, Sleeping));
    case Done(state, letter) =>
      var ended := tx.(state := state);
      FinishKeepsPlaced(setup, s, ended);
      if letter.Some? {
        LetterKeepsPlaced(setup, Finish(s, ended), ended, letter.value);
      }
  }

  lemma TakeKeepsPlaced(setup: Setup, s: State)
    requires Placed(setup, s) && s.outgoing != [] && s.sender.None?
    ensures Placed(setup, Take(setup, s.(outgoing := s.outgoing[1..]), s.outgoing[0]))
  {
    var tx := s.outgoing[0];
    var rest := s.(outgoing := s.outgoing[1..]);
    assert Approved(setup, tx);
    match setup.routing(tx.recipientId)
    case NoRoute =>
      var failed := tx.(state := Failed);
      FinishKeepsPlaced(setup, rest, failed);
      LetterKeepsPlaced(setup, Finish(rest, failed), failed, "UNKNOWN_RECIPIENT_ROUTING");
    case Misconfigured => FinishKeepsPlaced(setup, rest, tx);
    case Route =>
      if tx.retryCount < setup.maxAttempts {
        HoldKeepsPlaced(setup, rest, Hand(Attempting(tx), Opening));
      } else {
        FinishKeepsPlaced(setup, rest, tx);
      }
  }

  lemma PepTakeKeepsPlaced(setup: Setup, s: State)
    requires Placed(setup, s) && s.signed != [] && s.pep.None?
    ensures Placed(setup, Judge(setup, s.(signed := s.signed[1..]), s.signed[0]))
  {
    var tx := s.signed[0];
    assert AwaitsPolicy(setup, tx);
    if Permitted(setup, tx) {
      assert Approved(setup, tx.(state := PolicyApproved));
    } else {
      assert Refused(setup, tx.(state := PolicyRejected));
    }
  }

  lemma SignerTakeKeepsPlaced(setup: Setup, s: State, signature: seq<byte>)
    requires Placed(setup, s) && Enabled(setup, s, SignerTake(signature))
    ensures Placed(setup, Apply(setup, s, SignerTake(signature)))
  {
    assert Fresh(s.extracted[0]);
    assert AwaitsPolicy(setup, SignedBy(setup, s.extracted[0], signature));
  }

  lemma ApplyKeepsPlaced(setup: Setup, s: State, a: Action)
    requires Enabled(setup, s, a) && Placed(setup, s)
    ensures Placed(setup, Apply(setup, s, a))
  {
    if a.SignerTake? {
      SignerTakeKeepsPlaced(setup, s, a.signature);
    } else if a.PepTake? {
      PepTakeKeepsPlaced(setup, s);
    } else if a.SenderTake? {
      TakeKeepsPlaced(setup, s);
    } else if a.SessionFails? {
      ConcludeKeepsPlaced(setup, s, SessionFailed);
    } else if a.SendReturns? {
      ConcludeKeepsPlaced(setup, s, Answered(a.result));
    } else if a.Wake? || a.SessionOpens? {
      var hand := s.sender.value;
      assert InTransmission(setup, if a.Wake? then Hand(Attempting(hand.tx), Opening) else Hand(hand.tx, Waiting));
    }
  }

  // ----- Queue bounds -----

  ghost predicate Bounded(setup: Setup, s: State) {
    && (setup.limits.extracted > 0 ==> |s.extracted| <= setup.limits.extracted)
    && (setup.limits.signed > 0 ==> |s.signed| <= setup.limits.signed)
    && (setup.limits.outgoing > 0 ==> |s.outgoing| <= setup.limits.outgoing)
  }

  lemma ApplyKeepsBounded(setup: Setup, s: State, a: Action)
    requires Enabled(setup, s, a) && Bounded(setup, s)
    ensures Bounded(setup, Apply(setup, s, a))
  {
  }

  // ----- Dead letters -----

  function EntryIds(entries: seq<Entry>): multiset<string> {
    if entries == [] then multiset{}
    else EntryIds(entries[..|entries| - 1]) + multiset{entries[|entries| - 1].transactionId}
  }

  function FailedIds(txs: seq<Transaction>): multiset<string> {
    if txs == [] then multiset{}
    else
      var last := txs[|txs| - 1];
      FailedIds(txs[..|txs| - 1]) + if last.state.Failed? then multiset{last.id} else multiset{}
  }

  /** One dead-letter entry for each transaction refused by policy or FAILED, and no others. */
  ghost predicate DeadLettered(s: State) {
    EntryIds(s.deadLetters) == multiset(Ids(s.rejected)) + FailedIds(s.finished)
  }

  lemma EntryAppend(entries: seq<Entry>, e: Entry)
    ensures EntryIds(entries + [e]) == EntryIds(entries) + multiset{e.transactionId}
  {
    assert (entries + [e])[..|entries|] == entries;
  }

  lemma FailedAppend(txs: seq<Transaction>, tx: Transaction)
    ensures FailedIds(txs + [tx]) == FailedIds(txs) + if tx.state.Failed? then multiset{tx.id} else multiset{}
  {
    assert (txs + [tx])[..|txs|] == txs;
  }

  lemma FailureIsLettered(s: State, tx: Transaction, reason: string)
    requires DeadLettered(s) && tx.state.Failed?
    ensures DeadLettered(DeadLetter(Finish(s, tx), tx, reason))
  {
    EntryAppend(s.deadLetters, Entry(tx.id, reason, tx.state));
    FailedAppend(s.finished, tx);
  }

  lemma SuccessIsNotLettered(s: State, tx: Transaction)
    requires DeadLettered(s) && !tx.state.Failed?
    ensures DeadLettered(Finish(s, tx))
  {
    FailedAppend(s.finished, tx);
  }

  lemma RefusalIsLettered(s: State, tx: Transaction, reason: string)
    requires DeadLettered(s)
    ensures DeadLettered(DeadLetter(s.(rejected := s.rejected + [tx]), tx, reason))
  {
    EntryAppend(s.deadLetters, Entry(tx.id, reason, tx.state));
    IdsAppend(s.rejected, tx);
  }

  lemma ConcludeKeepsDeadLettered(setup: Setup, s: State, tx: Transaction, attempt: Attempt)
    requires DeadLettered(s)
    ensures DeadLettered(Conclude(setup, s, tx, attempt))
  {
    match AfterAttempt(setup.maxAttempts, tx.retryCount, attempt)
    case Again =>
    case Done(state, None) => SuccessIsNotLettered(s, tx.(state := state));
    case Done(state, Some(reason)) => FailureIsLettered(s, tx.(state := state), reason);
  }

  lemma TakeKeepsDeadLettered(setup: Setup, s: State, tx: Transaction)
    requires DeadLettered(s) && tx.state.PolicyApproved?
    ensures DeadLettered(Take(setup, s, tx))
  {
    FailureIsLettered(s, tx.(state := Failed), "UNKNOWN_RECIPIENT_ROUTING");
    SuccessIsNotLettered(s, tx);
  }

  lemma JudgeKeepsDeadLettered(setup: Setup, s: State, tx: Transaction)
    requires DeadLettered(s)
    ensures DeadLettered(Judge(setup, s, tx))
  {
    var verdict := OutboundPep.Authorize(setup.policy, tx.tlp, tx.recipientId);
    if !verdict.Permitted? {
      RefusalIsLettered(s, tx.(state := PolicyRejected), OutboundPep.ReasonCode(verdict));
    }
  }

  lemma ApplyKeepsDeadLettered(setup: Setup, s: State, a: Action)
    requires Enabled(setup, s, a) && DeadLettered(s) && Placed(setup, s)
    ensures DeadLettered(Apply(setup, s, a))
  {
    match a
    case PepTake => JudgeKeepsDeadLettered(setup, s.(signed := s.signed[1..]), s.signed[0]);
    case SenderTake =>
      assert Approved(setup, s.outgoing[0]);
      TakeKeepsDeadLettered(setup, s.(outgoing := s.outgoing[1..]), s.outgoing[0]);
    case SessionFails => ConcludeKeepsDeadLettered(setup, s, s.sender.value.tx, SessionFailed);
    case SendReturns(result) => ConcludeKeepsDeadLettered(setup, s, s.sender.value.tx, Answered(result));
    case _ =>
  }

  // ----- All runs -----

  ghost predicate Inv(setup: Setup, s: State) {
    Conserved(s) && Placed(setup, s) && Bounded(setup, s) && DeadLettered(s)
  }

  lemma InitialInv(setup: Setup)
    ensures Inv(setup, INITIAL)
  {
    assert Ids([]) == [] && Line(INITIAL) == [];
  }

  lemma ApplyKeepsInv(setup: Setup, s: State, a: Action)
    requires Enabled(setup, s, a) && Inv(setup, s)
    ensures Inv(setup, Apply(setup, s, a))
  {
    ApplyKeepsConserved(setup, s, a);
    ApplyKeepsPlaced(setup, s, a);
    ApplyKeepsBounded(setup, s, a);
    ApplyKeepsDeadLettered(setup, s, a);
  }

  /** The states a run passes through: any interleaving of the workers' actions. */
  ghost predicate IsRun(setup: Setup, actions: seq<Action>, states: seq<State>) {
    && |states| == |actions| + 1 && states[0] == INITIAL
    && forall i :: 0 <= i < |actions| ==>
         Enabled(setup, states[i], actions[i]) && states[i + 1] == Apply(setup, states[i], actions[i])
  }

  /**
   * In every state of every run each transaction created is in exactly one queue, one worker's hand or one
   * bucket; what reaches transmission was signed and then permitted by policy; every FAILED or refused
   * transaction has exactly one dead letter; and no queue exceeds its limit.
   */
  lemma {:induction false} RunsAreSafe(setup: Setup, actions: seq<Action>, states: seq<State>, i: nat)
    requires IsRun(setup, actions, states) && i <= |actions|
    ensures Inv(setup, states[i])
  {
    if i == 0 {
      InitialInv(setup);
    } else {
      RunsAreSafe(setup, actions, states, i - 1);
      ApplyKeepsInv(setup, states[i - 1], actions[i - 1]);
    }
  }

  /** One action, if it is enabled. */
  function Try(setup: Setup, s: Option<State>, a: Action): Option<State> {
    if s.Some? && Enabled(setup, s.value, a) then Some(Apply(setup, s.value, a)) else None
  }

  /** The state after a sequence of actions, if each is enabled when its turn comes. */
  function After(setup: Setup, s: State, actions: seq<Action>): Option<State> {
    if actions == [] then Some(s)
    else Try(setup, After(setup, s, actions[..|actions| - 1]), actions[|actions| - 1])
  }

  lemma AfterLast(setup: Setup, s: State, actions: seq<Action>, a: Action)
    ensures After(setup, s, actions + [a]) == Try(setup, After(setup, s, actions), a)
  {
    assert (actions + [a])[..|actions|] == actions;
  }

  lemma AfterOneMore(setup: Setup, s: State, actions: seq<Action>, s': State, a: Action)
    requires After(setup, s, actions) == Some(s') && Enabled(setup, s', a)
    ensures After(setup, s, actions + [a]) == Some(Apply(setup, s', a))
  {
    AfterLast(setup, s, actions, a);
  }

  /** With positive limits the work in flight is at most the three queues and the four workers' hands. */
  lemma InFlightBound(setup: Setup, actions: seq<Action>, states: seq<State>, i: nat)
    requires IsRun(setup, actions, states) && i <= |actions|
    requires setup.limits.extracted > 0 && setup.limits.signed > 0 && setup.limits.outgoing > 0
    ensures 0 <= InFlight(states[i]) <= setup.limits.extracted + setup.limits.signed + setup.limits.outgoing + 4
  {
    RunsAreSafe(setup, actions, states, i);
  }

  /**
   * How a transaction left transmission: unrecorded exactly when it could not be attempted, FAILED without an
   * attempt exactly when its recipient has no route, and otherwise ACKED or FAILED after attempts within the limit.
   */
  lemma FinishedStates(setup: Setup, actions: seq<Action>, states: seq<State>, i: nat, j: nat)
    requires IsRun(setup, actions, states) && i <= |actions| && j < |states[i].finished|
    ensures var tx := states[i].finished[j];
            && (tx.state.PolicyApproved? <==> Unattempted(setup, tx))
            && (tx.state.Failed? && tx.retryCount == 0 <==> setup.routing(tx.recipientId).NoRoute?)
            && (tx.state in {Acked, Failed} && 1 <= tx.retryCount <= setup.maxAttempts <==>
                  setup.routing(tx.recipientId).Route? && setup.maxAttempts >= 1)
            && tx.state in {Acked, Failed, PolicyApproved}
  {
    RunsAreSafe(setup, actions, states, i);
    assert Ended(setup, states[i].finished[j]);
  }

  /** Transactions finish transmission in the order they were extracted. */
  lemma FinishInOrder(setup: Setup, actions: seq<Action>, states: seq<State>, i: nat)
    requires IsRun(setup, actions, states) && i <= |actions|
    ensures Subsequence(Ids(states[i].finished), Ids(states[i].created))
  {
    RunsAreSafe(setup, actions, states, i);
    var s := states[i];
    var n := |s.finished|;
    Prefix(Line(s), n, Ids(s.created));
    assert Line(s)[..n] == Ids(s.finished);
  }

  // ----- No transaction is in two places -----

  lemma {:induction false} DistinctCounts(ids: seq<string>, x: string)
    requires Distinct(ids)
    ensures multiset(ids)[x] <= 1
  {
    if ids != [] {
      var n := |ids| - 1;
      DistinctCounts(ids[..n], x);
      assert ids == ids[..n] + [ids[n]];
      if ids[n] == x {
        assert x !in ids[..n];
      }
    }
  }

  lemma RepeatCounts(ids: seq<string>, i: nat, j: nat)
    requires i < j < |ids| && ids[i] == ids[j]
    ensures multiset(ids)[ids[i]] >= 2
  {
    assert ids == ids[..j] + ids[j..];
    assert ids[i] in ids[..j] && ids[j] in ids[j..];
  }

  lemma LineIsDistinct(s: State)
    requires Conserved(s)
    ensures Distinct(Line(s))
  {
    forall i, j | 0 <= i < j < |Line(s)|
      ensures Line(s)[i] != Line(s)[j]
    {
      if Line(s)[i] == Line(s)[j] {
        RepeatCounts(Line(s), i, j);
        DistinctCounts(Ids(s.created), Line(s)[i]);
      }
    }
  }

  /** Neither the transaction in transmission nor the next one is among the finished. */
  ghost predicate Unfinished(s: State) {
    && (s.sender.Some? ==> s.sender.value.tx.id !in Ids(s.finished))
    && (s.outgoing != [] ==> s.outgoing[0].id !in Ids(s.finished) + HeldId(s.sender))
  }

  lemma DistinctLineUnfinished(s: State)
    requires Distinct(Line(s))
    ensures Unfinished(s)
  {
    var n := |s.finished|;
    var line := Line(s);
    assert line[..n] == Ids(s.finished);
    if s.sender.Some? {
      assert line[n] == s.sender.value.tx.id;
    }
    var m := n + |HeldId(s.sender)|;
    assert line[..m] == Ids(s.finished) + HeldId(s.sender);
    if s.outgoing != [] {
      IdsSplit(s.outgoing);
      assert line[m] == s.outgoing[0].id;
    }
  }

  lemma NotYetFinished(s: State)
    requires Conserved(s)
    ensures Unfinished(s)
  {
    LineIsDistinct(s);
    DistinctLineUnfinished(s);
  }

  // ----- A queue without limit -----

  function Unary(n: nat): string {
    seq(n, i => 'i')
  }

  function Copy(t: Transaction, i: nat): Transaction {
    t.(id := Unary(i))
  }

  /** The queue in which copies of a transaction pile up. */
  datatype Pile = InExtracted | InSigned | InOutgoing

  function SignedCopy(setup: Setup, t: Transaction, signature: seq<byte>, i: nat): Transaction {
    SignedBy(setup, Copy(t, i), signature)
  }

  /** `n` copies of `t` were extracted and all wait in one queue. */
  function Piled(setup: Setup, t: Transaction, signature: seq<byte>, pile: Pile, n: nat): State {
    INITIAL.(
      created := seq(n, (i: nat) => Copy(t, i)),
      extracted := if pile.InExtracted? then seq(n, (i: nat) => Copy(t, i)) else [],
      signed := if pile.InSigned? then seq(n, (i: nat) => SignedCopy(setup, t, signature, i)) else [],
      outgoing := if pile.InOutgoing?
                  then seq(n, (i: nat) => SignedCopy(setup, t, signature, i).(state := PolicyApproved)) else [])
  }

  /** The queue has no limit and `t` can get there. */
  ghost predicate CanPile(setup: Setup, t: Transaction, signature: seq<byte>, pile: Pile) {
    && Fresh(t)
    && (!pile.InExtracted? ==> setup.isSignature(setup.compress(t.rawJson), signature))
    && match pile
       case InExtracted => setup.limits.extracted <= 0
       case InSigned => setup.limits.signed <= 0
       case InOutgoing => setup.limits.outgoing <= 0 && Permitted(setup, t)
  }

  lemma FreshCopy(t: Transaction, n: nat)
    ensures Unary(n) !in Ids(seq(n, (i: nat) => Copy(t, i)))
  {
    var ids := Ids(seq(n, (i: nat) => Copy(t, i)));
    forall i | 0 <= i < |ids|
      ensures ids[i] != Unary(n)
    {
      assert |ids[i]| == i;
    }
  }

  lemma {:induction false} AfterConcat(setup: Setup, s: State, first: seq<Action>, s': State, second: seq<Action>)
    requires After(setup, s, first) == Some(s')
    ensures After(setup, s, first + second) == After(setup, s', second)
    decreases |second|
  {
    if second == [] {
      assert first + second == first;
    } else {
      var n := |second| - 1;
      AfterConcat(setup, s, first, s', second[..n]);
      assert first + second == first + second[..n] + [second[n]] && second == second[..n] + [second[n]];
      AfterLast(setup, s, first + second[..n], second[n]);
      AfterLast(setup, s', second[..n], second[n]);
    }
  }

  lemma AfterTwo(setup: Setup, s: State, a: Action, b: Action)
    requires Enabled(setup, s, a) && Enabled(setup, Apply(setup, s, a), b)
    ensures After(setup, s, [a, b]) == Some(Apply(setup, Apply(setup, s, a), b))
  {
    AfterOneMore(setup, s, [], s, a);
    assert [] + [a] == [a];
    AfterOneMore(setup, s, [a], Apply(setup, s, a), b);
    assert [a] + [b] == [a, b];
  }

  lemma ArrivesOne(setup: Setup, s: State, tx: Transaction)
    requires s.extractor.None? && Fresh(tx) && tx.id !in Ids(s.created) && HasRoom(s.extracted, setup.limits.extracted)
    ensures After(setup, s, [Extract(tx), ExtractorPut]) ==
            Some(s.(created := s.created + [tx], extracted := s.extracted + [tx]))
  {
    AfterTwo(setup, s, Extract(tx), ExtractorPut);
  }

  lemma SignsOne(setup: Setup, s: State, tx: Transaction, signature: seq<byte>)
    requires s.signer.None? && s.extracted == [tx] && HasRoom(s.signed, setup.limits.signed)
    requires setup.isSignature(setup.compress(tx.rawJson), signature)
    ensures After(setup, s, [SignerTake(signature), SignerPut]) ==
            Some(s.(extracted := [], signed := s.signed + [SignedBy(setup, tx, signature)]))
  {
    AfterTwo(setup, s, SignerTake(signature), SignerPut);
  }

  lemma ApprovesOne(setup: Setup, s: State, tx: Transaction)
    requires s.pep.None? && s.signed == [tx] && HasRoom(s.outgoing, setup.limits.outgoing) && Permitted(setup, tx)
    ensures After(setup, s, [PepTake, PepPut]) ==
            Some(s.(signed := [], outgoing := s.outgoing + [tx.(state := PolicyApproved)]))
  {
    AfterTwo(setup, s, PepTake, PepPut);
  }

  /** The piles before and after one more copy. */
  lemma PileGrows(setup: Setup, t: Transaction, signature: seq<byte>, pile: Pile, n: nat)
    ensures var s, s' := Piled(setup, t, signature, pile, n), Piled(setup, t, signature, pile, n + 1);
            var signed := SignedCopy(setup, t, signature, n);
            s' == s.(created := s.created + [Copy(t, n)],
                     extracted := if pile.InExtracted? then s.extracted + [Copy(t, n)] else s.extracted,
                     signed := if pile.InSigned? then s.signed + [signed] else s.signed,
                     outgoing := if pile.InOutgoing? then s.outgoing + [signed.(state := PolicyApproved)]
                                 else s.outgoing)
  {
  }

  /** The copy comes into the extracted queue, where it stays or is alone. */
  lemma PileArrives(setup: Setup, t: Transaction, signature: seq<byte>, pile: Pile, n: nat) returns (s1: State)
    requires CanPile(setup, t, signature, pile)
    ensures var s := Piled(setup, t, signature, pile, n);
            && s1 == s.(created := s.created + [Copy(t, n)], extracted := s.extracted + [Copy(t, n)])
            && After(setup, s, [Extract(Copy(t, n)), ExtractorPut]) == Some(s1)
            && (!pile.InExtracted? ==> s1.extracted == [Copy(t, n)])
  {
    var s := Piled(setup, t, signature, pile, n);
    FreshCopy(t, n);
    ArrivesOne(setup, s, Copy(t, n));
    s1 := s.(created := s.created + [Copy(t, n)], extracted := s.extracted + [Copy(t, n)]);
  }

  lemma PilesOne(setup: Setup, t: Transaction, signature: seq<byte>, pile: Pile, n: nat) returns (actions: seq<Action>)
    requires CanPile(setup, t, signature, pile)
    ensures After(setup, Piled(setup, t, signature, pile, n), actions) == Some(Piled(setup, t, signature, pile, n + 1))
  {
    var s := Piled(setup, t, signature, pile, n);
    PileGrows(setup, t, signature, pile, n);
    var s1 := PileArrives(setup, t, signature, pile, n);
    actions := [Extract(Copy(t, n)), ExtractorPut];
    if !pile.InExtracted? {
      var signed := SignedCopy(setup, t, signature, n);
      SignsOne(setup, s1, Copy(t, n), signature);
      var s2 := s1.(extracted := [], signed := s1.signed + [signed]);
      AfterConcat(setup, s, actions, s1, [SignerTake(signature), SignerPut]);
      actions := actions + [SignerTake(signature), SignerPut];
      if pile.InOutgoing? {
        assert s2.signed == [signed];
        ApprovesOne(setup, s2, signed);
        AfterConcat(setup, s, actions, s2, [PepTake, PepPut]);
        actions := actions + [PepTake, PepPut];
      }
    }
  }

  /**
   * The bound needs its limits: `asyncio.Queue` takes a limit of zero or less as none, and then any amount of work
   * can be in flight if a transaction can reach that queue at all.
   */
  lemma {:induction false} UnlimitedQueueGrows(setup: Setup, t: Transaction, signature: seq<byte>, pile: Pile, n: nat)
    returns (actions: seq<Action>)
    requires CanPile(setup, t, signature, pile)
    ensures After(setup, INITIAL, actions) == Some(Piled(setup, t, signature, pile, n))
    ensures InFlight(Piled(setup, t, signature, pile, n)) == n
  {
    if n == 0 {
      actions := [];
      assert Piled(setup, t, signature, pile, 0).created == [];
      assert Piled(setup, t, signature, pile, 0) == INITIAL;
    } else {
      var earlier := UnlimitedQueueGrows(setup, t, signature, pile, n - 1);
      var last := PilesOne(setup, t, signature, pile, n - 1);
      AfterConcat(setup, INITIAL, earlier, Piled(setup, t, signature, pile, n - 1), last);
      actions := earlier + last;
    }
  }
}
