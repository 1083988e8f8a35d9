/**
 * The workers of gateway A as code: they take transaction objects from one queue, update them and put
 * them into the next. Each method is what a coroutine does between two awaits, and is proved to be an action of
 * the pipeline: if a worker's queues and hand represent their part of a pipeline state, they afterwards represent
 * the state in which the action leaves it. The transmission worker's whole retry loop is a sequence of actions.
 */
module Workers {
  import opened Basics
  import opened Exchange
  import opened DeadLetters
  import opened Transmission
  import opened Pipeline
  import OutboundPep

  ghost function Values(txs: seq<GatewayATransaction>): seq<Transaction>
    reads txs
  {
    seq(|txs|, i requires 0 <= i < |txs| reads txs => txs[i].Value())
  }

  ghost function Held(tx: GatewayATransaction?): Option<Transaction>
    reads tx
  {
    if tx == null then None else Some(tx.Value())
  }

  /** No object is twice in the queues and the hand of a worker. */
  ghost predicate Apart(input: seq<GatewayATransaction>, held: GatewayATransaction?, output: seq<GatewayATransaction>) {
    && (forall i, j :: 0 <= i < j < |input| ==> input[i] != input[j])
    && (forall i, j :: 0 <= i < j < |output| ==> output[i] != output[j])
    && (forall i :: 0 <= i < |input| ==> input[i] != held && input[i] !in output)
    && held !in output
  }

  class Queue {
    const maxsize: int
    var items: seq<GatewayATransaction>

    constructor (maxsize: int)
      ensures items == [] && this.maxsize == maxsize
    {
      this.maxsize, items := maxsize, [];
    }

    /** `get` of a queue that is not empty; on an empty one the coroutine stays suspended. */
    method Get() returns (tx: GatewayATransaction)
      requires items != []
      modifies this
      ensures tx == old(items[0]) && items == old(items[1..])
    {
      tx := items[0];
      items := items[1..];
    }

    /** `put` into a queue with room; on a full one the coroutine stays suspended. */
    method Put(tx: GatewayATransaction)
      requires maxsize <= 0 || |items| < maxsize
      modifies this
      ensures items == old(items) + [tx]
      ensures old(maxsize <= 0 || |items| <= maxsize) ==> maxsize <= 0 || |items| <= maxsize
    {
      items := items + [tx];
    }
  }

  class StixExtractor {
    const setup: Setup
    const outQueue: Queue
    var held: GatewayATransaction?

    ghost predicate Valid()
      reads this, outQueue
    {
      outQueue.maxsize == setup.limits.extracted && Apart([], held, outQueue.items)
    }

    constructor (setup: Setup, outQueue: Queue)
      requires outQueue.items == [] && outQueue.maxsize == setup.limits.extracted
      ensures Valid() && Represents(INITIAL)
      ensures this.setup == setup && this.outQueue == outQueue
    {
      this.setup, this.outQueue, held := setup, outQueue, null;
    }

    ghost predicate Represents(s: State)
      reads this, held, outQueue, outQueue.items
    {
      s.extractor == Held(held) && s.extracted == Values(outQueue.items)
    }

    /** A converted event becomes a transaction for the default sender and recipient, marked by its tags. */
    method Extract(ghost s: State, id: string, tags: seq<string>, bundle: seq<byte>, createdAtMs: int)
      requires Valid() && Represents(s) && held == null && id !in Ids(s.created)
      modifies this
      ensures Valid() && fresh(held)
      ensures held.Value() == Transaction(id, "RAW", "NIA", tags, OutboundPep.MarkingOf(tags), bundle, [], [], "",
                                          createdAtMs, Validated, 0)
      ensures Enabled(setup, s, Action.Extract(held.Value()))
      ensures Represents(Apply(setup, s, Action.Extract(held.Value())))
    {
      var tlp := OutboundPep.SelectMarking(tags);
      held := new GatewayATransaction(
        Transaction(id, "RAW", "NIA", tags, tlp, bundle, [], [], "", createdAtMs, Validated, 0));
    }

    method Put(ghost s: State)
      requires Valid() && Represents(s) && Enabled(setup, s, ExtractorPut)
      modifies this, outQueue
      ensures Valid() && Represents(Apply(setup, s, ExtractorPut))
    {
      outQueue.Put(held);
      held := null;
    }
  }

  function SignAction(signature: Option<seq<byte>>): Action {
    if signature.Some? then SignerTake(signature.value) else SignerRaises
  }

  class SignerWorker {
    const setup: Setup
    const inQueue: Queue
    const outQueue: Queue
    var held: GatewayATransaction?

    ghost predicate Valid()
      reads this, inQueue, outQueue
    {
      && inQueue != outQueue && outQueue.maxsize == setup.limits.signed
      && Apart(inQueue.items, held, outQueue.items)
    }

    ghost predicate Represents(s: State)
      reads this, inQueue, inQueue.items, held, outQueue, outQueue.items
    {
      s.extracted == Values(inQueue.items) && s.signer == Held(held) && s.signed == Values(outQueue.items)
    }

    constructor (setup: Setup, inQueue: Queue, outQueue: Queue)
      requires inQueue != outQueue && inQueue.items == [] && outQueue.items == []
      requires outQueue.maxsize == setup.limits.signed
      ensures Valid() && Represents(INITIAL)
      ensures this.setup == setup && this.inQueue == inQueue && this.outQueue == outQueue
    {
      this.setup, this.inQueue, this.outQueue, held := setup, inQueue, outQueue, null;
    }

    /** Compress, then sign what was compressed. The signer returns a signature or raises, losing the transaction. */
    method Sign(ghost s: State, signature: Option<seq<byte>>)
      requires Valid() && Represents(s) && Enabled(setup, s, SignAction(signature))
      modifies this, inQueue, inQueue.items[0]
      ensures Valid() && Represents(Apply(setup, s, SignAction(signature)))
    {
      var tx := inQueue.Get();
      tx.compressed := setup.compress(tx.rawJson);
      if signature.Some? {
        tx.signature := signature.value;
        tx.signerCertFingerprint := setup.fingerprint;
        tx.state := Signed;
        held := tx;
      }
    }

    method Put(ghost s: State)
      requires Valid() && Represents(s) && Enabled(setup, s, SignerPut)
      modifies this, outQueue
      ensures Valid() && Represents(Apply(setup, s, SignerPut))
    {
      outQueue.Put(held);
      held := null;
    }
  }

  class PepWorker {
    const setup: Setup
    const inQueue: Queue
    const outQueue: Queue
    const deadLetterStore: DeadLetterStore
    var held: GatewayATransaction?

    ghost predicate Valid()
      reads this, inQueue, outQueue, deadLetterStore
    {
      && inQueue != outQueue && outQueue.maxsize == setup.limits.outgoing
      && Apart(inQueue.items, held, outQueue.items) && deadLetterStore.Valid()
    }

    ghost predicate Represents(s: State)
      reads this, inQueue, inQueue.items, held, outQueue, outQueue.items, deadLetterStore
    {
      && s.signed == Values(inQueue.items) && s.pep == Held(held) && s.outgoing == Values(outQueue.items)
      && s.deadLetters == deadLetterStore.added
    }

    constructor (setup: Setup, inQueue: Queue, outQueue: Queue, deadLetterStore: DeadLetterStore)
      requires inQueue != outQueue && inQueue.items == [] && outQueue.items == []
      requires outQueue.maxsize == setup.limits.outgoing && deadLetterStore.Valid() && deadLetterStore.added == []
      ensures Valid() && Represents(INITIAL) && this.setup == setup
      ensures this.inQueue == inQueue && this.outQueue == outQueue && this.deadLetterStore == deadLetterStore
    {
      this.setup, this.inQueue, this.outQueue := setup, inQueue, outQueue;
      this.deadLetterStore, held := deadLetterStore, null;
    }

    /** Approve the next transaction, or dead-letter it; an exception before the verdict loses it unrecorded. */
    method Judge(ghost s: State, raises: bool, appendFails: bool)
      requires Valid() && Represents(s) && Enabled(setup, s, if raises then PepRaises else PepTake)
      modifies this, inQueue, inQueue.items[0], deadLetterStore
      ensures Valid() && Represents(Apply(setup, s, if raises then PepRaises else PepTake))
    {
      var tx := inQueue.Get();
      if !raises {
        var verdict := OutboundPep.Authorize(setup.policy, tx.tlp, tx.recipientId);
        if verdict.Permitted? {
          tx.state := PolicyApproved;
          held := tx;
        } else {
          tx.state := PolicyRejected;
          deadLetterStore.Add(Entry(tx.id, OutboundPep.ReasonCode(verdict), tx.state), appendFails);
        }
      }
    }

    method Put(ghost s: State)
      requires Valid() && Represents(s) && Enabled(setup, s, PepPut)
      modifies this, outQueue
      ensures Valid() && Represents(Apply(setup, s, PepPut))
    {
      outQueue.Put(held);
      held := null;
    }
  }

  /** The actions of one attempt, after the worker has started it. */
  function AttemptActions(attempt: Attempt): seq<Action> {
    if attempt.SessionFailed? then [SessionFails] else [SessionOpens, SendReturns(attempt.result)]
  }

  /** The actions of attempts 1 to `n`. */
  function TransmissionActions(attempts: nat -> Attempt, n: nat): seq<Action> {
    if n == 0 then []
    else TransmissionActions(attempts, n - 1) + [if n == 1 then SenderTake else Wake] + AttemptActions(attempts(n))
  }

  function AtAttempt(s: State, n: nat, stage: Stage): State
    requires s.outgoing != []
  {
    s.(outgoing := s.outgoing[1..], sender := Some(Hand(s.outgoing[0].(retryCount := n, state := Sending), stage)))
  }

  lemma ConcludeIgnoresStage(setup: Setup, s: State, t: State, attempt: Attempt)
    requires s.sender.Some? && t == s.(sender := Some(s.sender.value.(stage := Waiting)))
    ensures Conclude(setup, t, s.sender.value.tx, attempt) == Conclude(setup, s, s.sender.value.tx, attempt)
  {
  }

  /** An attempt that has begun is concluded by its actions. */
  lemma AttemptConcludes(setup: Setup, s: State, actions: seq<Action>, s': State, attempt: Attempt)
    requires After(setup, s, actions) == Some(s') && s'.sender.Some? && s'.sender.value.stage.Opening?
    ensures After(setup, s, actions + AttemptActions(attempt)) ==
            Some(Conclude(setup, s', s'.sender.value.tx, attempt))
  {
    if attempt.SessionFailed? {
      AfterOneMore(setup, s, actions, s', SessionFails);
    } else {
      AfterOneMore(setup, s, actions, s', SessionOpens);
      var open := Apply(setup, s', SessionOpens);
      AfterOneMore(setup, s, actions + [SessionOpens], open, SendReturns(attempt.result));
      assert actions + AttemptActions(attempt) == actions + [SessionOpens] + [SendReturns(attempt.result)];
      ConcludeIgnoresStage(setup, s', open, attempt);
    }
  }

  function Concluded(setup: Setup, s: State, n: nat, attempt: Attempt): State
    requires s.outgoing != []
  {
    Conclude(setup, AtAttempt(s, n, Opening), AtAttempt(s, n, Opening).sender.value.tx, attempt)
  }

  lemma FirstAttempt(setup: Setup, s: State, attempt: Attempt)
    requires s.sender.None? && s.outgoing != [] && s.outgoing[0].retryCount == 0
    requires setup.routing(s.outgoing[0].recipientId).Route? && 1 <= setup.maxAttempts
    ensures After(setup, s, [SenderTake] + AttemptActions(attempt)) == Some(Concluded(setup, s, 1, attempt))
  {
    AfterOneMore(setup, s, [], s, SenderTake);
    assert Apply(setup, s, SenderTake) == AtAttempt(s, 1, Opening);
    assert [] + [SenderTake] == [SenderTake];
    AttemptConcludes(setup, s, [SenderTake], AtAttempt(s, 1, Opening), attempt);
  }

  lemma WakeOpens(setup: Setup, s: State, n: nat)
    requires s.outgoing != []
    ensures var asleep := AtAttempt(s, n, Sleeping);
            Enabled(setup, asleep, Wake) && Apply(setup, asleep, Wake) == AtAttempt(s, n + 1, Opening)
  {
  }

  lemma NextAttempt(setup: Setup, s: State, earlier: seq<Action>, n: nat, attempt: Attempt)
    requires s.outgoing != [] && After(setup, s, earlier) == Some(AtAttempt(s, n, Sleeping))
    ensures After(setup, s, earlier + [Wake] + AttemptActions(attempt)) == Some(Concluded(setup, s, n + 1, attempt))
  {
    WakeOpens(setup, s, n);
    AfterOneMore(setup, s, earlier, AtAttempt(s, n, Sleeping), Wake);
    AttemptConcludes(setup, s, earlier + [Wake], AtAttempt(s, n + 1, Opening), attempt);
  }

  lemma RepeatSleeps(setup: Setup, s: State, n: nat, attempt: Attempt)
    requires s.outgoing != [] && n < setup.maxAttempts && Retryable(attempt)
    ensures Concluded(setup, s, n, attempt) == AtAttempt(s, n, Sleeping)
  {
  }

  lemma FirstActions(attempts: nat -> Attempt)
    ensures TransmissionActions(attempts, 1) == [SenderTake] + AttemptActions(attempts(1))
  {
    assert TransmissionActions(attempts, 0) == [];
  }

  lemma LaterActions(attempts: nat -> Attempt, n: nat)
    requires n > 1
    ensures TransmissionActions(attempts, n) ==
            TransmissionActions(attempts, n - 1) + [Wake] + AttemptActions(attempts(n))
  {
  }

  lemma LaterAttempt(setup: Setup, s: State, attempts: nat -> Attempt, n: nat)
    requires s.outgoing != [] && n > 1
    requires After(setup, s, TransmissionActions(attempts, n - 1)) == Some(AtAttempt(s, n - 1, Sleeping))
    ensures After(setup, s, TransmissionActions(attempts, n)) == Some(Concluded(setup, s, n, attempts(n)))
  {
    LaterActions(attempts, n);
    NextAttempt(setup, s, TransmissionActions(attempts, n - 1), n - 1, attempts(n));
  }

  /** As long as attempts are to be repeated, the actions lead through them. */
  lemma {:induction false} AttemptsRun(setup: Setup, s: State, attempts: nat -> Attempt, n: nat)
    requires s.sender.None? && s.outgoing != [] && s.outgoing[0].retryCount == 0
    requires setup.routing(s.outgoing[0].recipientId).Route? && 1 <= n <= setup.maxAttempts
    requires forall k: nat :: 1 <= k < n ==> Retryable(attempts(k))
    ensures After(setup, s, TransmissionActions(attempts, n)) == Some(Concluded(setup, s, n, attempts(n)))
    decreases n, 0
  {
    if n == 1 {
      FirstAttempt(setup, s, attempts(1));
      FirstActions(attempts);
    } else {
      AttemptsSleep(setup, s, attempts, n - 1);
      LaterAttempt(setup, s, attempts, n);
    }
  }

  lemma {:induction false} AttemptsSleep(setup: Setup, s: State, attempts: nat -> Attempt, n: nat)
    requires s.sender.None? && s.outgoing != [] && s.outgoing[0].retryCount == 0
    requires setup.routing(s.outgoing[0].recipientId).Route? && 1 <= n < setup.maxAttempts
    requires forall k: nat :: 1 <= k <= n ==> Retryable(attempts(k))
    ensures After(setup, s, TransmissionActions(attempts, n)) == Some(AtAttempt(s, n, Sleeping))
    decreases n, 1
  {
    AttemptsRun(setup, s, attempts, n);
    RepeatSleeps(setup, s, n, attempts(n));
  }

  function Lettered(entries: seq<Entry>, id: string, next: Next): seq<Entry>
    requires next.Done?
  {
    if next.deadLetter.Some? then entries + [Entry(id, next.deadLetter.value, next.state)] else entries
  }

  /** The state that attempt `n` leaves if it is the last. */
  lemma LastAttempt(setup: Setup, s: State, n: nat, attempt: Attempt)
    requires s.sender.None? && s.outgoing != [] && AfterAttempt(setup.maxAttempts, n, attempt).Done?
    ensures var tx, next := s.outgoing[0], AfterAttempt(setup.maxAttempts, n, attempt);
            Concluded(setup, s, n, attempt) ==
            s.(outgoing := s.outgoing[1..],
               finished := s.finished + [tx.(retryCount := n, state := next.state)],
               deadLetters := Lettered(s.deadLetters, tx.id, next))
  {
  }

  /** The state after all attempts up to the last. */
  lemma TransmissionEnds(setup: Setup, s: State, attempts: nat -> Attempt, n: nat)
    requires s.sender.None? && s.outgoing != [] && s.outgoing[0].retryCount == 0
    requires setup.routing(s.outgoing[0].recipientId).Route? && 1 <= n <= setup.maxAttempts
    requires forall k: nat :: 1 <= k < n ==> Retryable(attempts(k))
    requires AfterAttempt(setup.maxAttempts, n, attempts(n)).Done?
    ensures var tx, next := s.outgoing[0], AfterAttempt(setup.maxAttempts, n, attempts(n));
            After(setup, s, TransmissionActions(attempts, n)) ==
            Some(s.(outgoing := s.outgoing[1..],
                    finished := s.finished + [tx.(retryCount := n, state := next.state)],
                    deadLetters := Lettered(s.deadLetters, tx.id, next)))
  {
    AttemptsRun(setup, s, attempts, n);
    LastAttempt(setup, s, n, attempts(n));
  }

  /** A transaction that cannot be attempted ends at once. */
  lemma NoAttempt(setup: Setup, s: State)
    requires s.sender.None? && s.outgoing != [] && s.outgoing[0].retryCount == 0
    requires !setup.routing(s.outgoing[0].recipientId).Route? || setup.maxAttempts <= 0
    ensures var tx, unrouted := s.outgoing[0], setup.routing(s.outgoing[0].recipientId).NoRoute?;
            After(setup, s, [SenderTake]) ==
            Some(s.(outgoing := s.outgoing[1..],
                    finished := s.finished + [if unrouted then tx.(state := Failed) else tx],
                    deadLetters := if unrouted then s.deadLetters + [Entry(tx.id, "UNKNOWN_RECIPIENT_ROUTING", Failed)]
                                   else s.deadLetters))
  {
    AfterOneMore(setup, s, [], s, SenderTake);
    assert [] + [SenderTake] == [SenderTake];
  }

  /** How the worker may leave the head of the queue: the transaction as it ended, and the dead letters. */
  ghost predicate LeavesAs(setup: Setup, s: State, attempts: nat -> Attempt, ended: Transaction, letters: seq<Entry>)
    requires s.outgoing != []
  {
    var tx := s.outgoing[0];
    var routing := setup.routing(tx.recipientId);
    if routing.Route? && setup.maxAttempts > 0 then
      var n := ended.retryCount;
      && 1 <= n <= setup.maxAttempts
      && (forall k: nat :: 1 <= k < n ==> Retryable(attempts(k)))
      && var last := AfterAttempt(setup.maxAttempts, n, attempts(n));
      && last.Done? && ended == tx.(retryCount := n, state := last.state)
      && letters == Lettered(s.deadLetters, tx.id, last)
    else if routing.NoRoute? then
      && ended == tx.(state := Failed)
      && letters == s.deadLetters + [Entry(tx.id, "UNKNOWN_RECIPIENT_ROUTING", Failed)]
    else
      ended == tx && letters == s.deadLetters
  }

  lemma LeavingIsRun(setup: Setup, s: State, attempts: nat -> Attempt, ended: Transaction, letters: seq<Entry>)
    returns (actions: seq<Action>)
    requires s.sender.None? && s.outgoing != [] && s.outgoing[0].retryCount == 0
    requires LeavesAs(setup, s, attempts, ended, letters)
    ensures After(setup, s, actions) ==
            Some(s.(outgoing := s.outgoing[1..], finished := s.finished + [ended], deadLetters := letters))
  {
    if setup.routing(s.outgoing[0].recipientId).Route? && setup.maxAttempts > 0 {
      actions := TransmissionActions(attempts, ended.retryCount);
      TransmissionEnds(setup, s, attempts, ended.retryCount);
    } else {
      actions := [SenderTake];
      NoAttempt(setup, s);
    }
  }

  class TransmissionWorker {
    const setup: Setup
    const config: Config
    const txQueue: Queue
    const deadLetterStore: DeadLetterStore

    ghost predicate Valid()
      reads this, txQueue, deadLetterStore
    {
      config.maxAttempts == setup.maxAttempts && Apart(txQueue.items, null, []) && deadLetterStore.Valid()
    }

    /** The worker between two transactions. */
    ghost predicate Represents(s: State)
      reads this, txQueue, txQueue.items, deadLetterStore
    {
      s.outgoing == Values(txQueue.items) && s.sender.None? && s.deadLetters == deadLetterStore.added
    }

    constructor (setup: Setup, config: Config, txQueue: Queue, deadLetterStore: DeadLetterStore)
      requires config.maxAttempts == setup.maxAttempts && txQueue.items == []
      requires deadLetterStore.Valid() && deadLetterStore.added == []
      ensures Valid() && Represents(INITIAL) && this.setup == setup && this.config == config
      ensures this.txQueue == txQueue && this.deadLetterStore == deadLetterStore
    {
      this.setup, this.config, this.txQueue, this.deadLetterStore := setup, config, txQueue, deadLetterStore;
    }

    /** The transaction taken from the queue is processed to its end. */
    method Transmit(ghost s: State, tx: GatewayATransaction, attempts: nat -> Attempt, appendFails: bool)
      requires config.maxAttempts == setup.maxAttempts && deadLetterStore.Valid()
      requires s.outgoing != [] && s.outgoing[0] == tx.Value() && tx.retryCount == 0
      requires s.deadLetters == deadLetterStore.added
      modifies tx, deadLetterStore
      ensures deadLetterStore.Valid()
      ensures LeavesAs(setup, s, attempts, tx.Value(), deadLetterStore.added)
    {
      var routing := setup.routing(tx.recipientId);
      var raised, sleeps := ProcessTransaction(tx, routing, config, attempts, deadLetterStore, appendFails);
    }

    /**
     * One turn of the worker's loop: take a transaction and process it to its end. It is a sequence of the
     * pipeline's actions, after which the transaction is finished as the object now says.
     */
    method Turn(ghost s: State, attempts: nat -> Attempt, appendFails: bool)
      returns (tx: GatewayATransaction, ghost actions: seq<Action>)
      requires Valid() && Represents(s) && s.outgoing != [] && s.outgoing[0].retryCount == 0
      modifies this, txQueue, txQueue.items[0], deadLetterStore
      ensures Valid() && After(setup, s, actions).Some?
      ensures var s' := After(setup, s, actions).value;
              Represents(s') && s'.outgoing == s.outgoing[1..] && s'.finished == s.finished + [tx.Value()]
    {
      tx := txQueue.Get();
      Transmit(s, tx, attempts, appendFails);
      actions := LeavingIsRun(setup, s, attempts, tx.Value(), deadLetterStore.added);
    }
  }
}
