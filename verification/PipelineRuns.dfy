/** What a run of gateway A's pipeline does to each transaction, and that work in flight can always be finished. */
module PipelineRuns {
  import opened Basics
  import opened Exchange
  import opened DeadLetters
  import opened Transmission
  import opened Pipeline

  // ----- Every place -----

  function Held(tx: Option<Transaction>): seq<Transaction> {
    if tx.Some? then [tx.value] else []
  }

  function HeldInHand(hand: Option<Hand>): seq<Transaction> {
    if hand.Some? then [hand.value.tx] else []
  }

  /** The transactions in the line, in its order, and those that left it before transmission. */
  function All(s: State): seq<Transaction> {
    (s.finished + HeldInHand(s.sender) + s.outgoing) + (Held(s.pep) + s.signed) +
    (Held(s.signer) + s.extracted + Held(s.extractor)) + (s.rejected + s.dropped)
  }

  lemma IdsConcat(a: seq<Transaction>, b: seq<Transaction>)
    ensures Ids(a + b) == Ids(a) + Ids(b)
  {
  }

  lemma IdsHeld(tx: Option<Transaction>, hand: Option<Hand>)
    ensures Ids(Held(tx)) == IdOf(tx) && Ids(HeldInHand(hand)) == HeldId(hand)
  {
  }

  lemma DownstreamIds(s: State)
    ensures Ids(s.finished + HeldInHand(s.sender) + s.outgoing) == Downstream(s)
  {
    IdsConcat(s.finished, HeldInHand(s.sender));
    IdsConcat(s.finished + HeldInHand(s.sender), s.outgoing);
    IdsHeld(None, s.sender);
  }

  lemma UpstreamIds(s: State)
    ensures Ids(Held(s.signer) + s.extracted + Held(s.extractor)) == Upstream(s)
  {
    IdsConcat(Held(s.signer), s.extracted);
    IdsConcat(Held(s.signer) + s.extracted, Held(s.extractor));
    IdsHeld(s.signer, None);
    IdsHeld(s.extractor, None);
  }

  lemma AllIds(s: State)
    ensures Ids(All(s)) == Line(s) + (Ids(s.rejected) + Ids(s.dropped))
  {
    var down := s.finished + HeldInHand(s.sender) + s.outgoing;
    var up := Held(s.signer) + s.extracted + Held(s.extractor);
    DownstreamIds(s);
    UpstreamIds(s);
    IdsConcat(Held(s.pep), s.signed);
    IdsHeld(s.pep, None);
    IdsConcat(down, Held(s.pep) + s.signed);
    IdsConcat(down + (Held(s.pep) + s.signed), up);
    IdsConcat(s.rejected, s.dropped);
    IdsConcat(down + (Held(s.pep) + s.signed) + up, s.rejected + s.dropped);
  }

  /** Each transaction created is in exactly one place: no id is twice in the queues, the hands and the buckets. */
  lemma OnePlace(s: State)
    requires Conserved(s)
    ensures Distinct(Ids(All(s))) && multiset(Ids(All(s))) == multiset(Ids(s.created))
  {
    AllIds(s);
    var ids := Ids(All(s));
    assert multiset(ids) == multiset(Line(s)) + Gone(s);
    forall i, j | 0 <= i < j < |ids|
      ensures ids[i] != ids[j]
    {
      if ids[i] == ids[j] {
        RepeatCounts(ids, i, j);
        DistinctCounts(Ids(s.created), ids[i]);
      }
    }
  }

  predicate Somewhere(s: State, tx: Transaction) {
    tx in All(s)
  }

  lemma Places(s: State, tx: Transaction)
    ensures Somewhere(s, tx) <==>
            || tx in s.finished || tx in HeldInHand(s.sender) || tx in s.outgoing
            || tx in Held(s.pep) || tx in s.signed
            || tx in Held(s.signer) || tx in s.extracted || tx in Held(s.extractor)
            || tx in s.rejected || tx in s.dropped
  {
  }

  lemma SameAtDistinctIds(all: seq<Transaction>, tx: Transaction, other: Transaction)
    requires Distinct(Ids(all)) && tx in all && other in all && tx.id == other.id
    ensures tx == other
  {
    var i :| 0 <= i < |all| && all[i] == tx;
    var j :| 0 <= j < |all| && all[j] == other;
    assert Ids(all)[i] == Ids(all)[j];
  }

  lemma SameIdSameTransaction(s: State, tx: Transaction, other: Transaction)
    requires Conserved(s) && Somewhere(s, tx) && Somewhere(s, other) && tx.id == other.id
    ensures tx == other
  {
    OnePlace(s);
    SameAtDistinctIds(All(s), tx, other);
  }

  // ----- The path of a transaction -----

  /** What each state may be followed by. */
  function Successors(state: TransactionState): set<TransactionState> {
    match state
    case Validated => {Signed}
    case Signed => {PolicyApproved, PolicyRejected}
    case PolicyApproved => {Sending, Failed}
    case Sending => {Acked, Failed}
    case _ => {}
  }

  /** The states that may still come. */
  function Later(state: TransactionState): set<TransactionState> {
    match state
    case Validated => {Signed, PolicyApproved, PolicyRejected, Sending, Acked, Failed}
    case Signed => {PolicyApproved, PolicyRejected, Sending, Acked, Failed}
    case PolicyApproved => {Sending, Acked, Failed}
    case Sending => {Acked, Failed}
    case _ => {}
  }

  /** `later` lies on the path from `state`. */
  predicate Reaches(state: TransactionState, later: TransactionState) {
    state == later || later in Later(state)
  }

  /** What may still come is what the successors reach, and never the state itself: paths do not go back. */
  lemma LaterIsPath(state: TransactionState, later: TransactionState)
    ensures later in Later(state) <==> exists next :: next in Successors(state) && Reaches(next, later)
    ensures state !in Later(state)
  {
    if later in Later(state) {
      var next := if later in Successors(state) then later
                  else if state.Validated? then Signed
                  else if state.Signed? then PolicyApproved
                  else Sending;
      assert next in Successors(state) && Reaches(next, later);
    }
  }

  /** The fields that extraction fixes. */
  predicate SameSource(tx: Transaction, later: Transaction) {
    && later.id == tx.id && later.senderId == tx.senderId && later.recipientId == tx.recipientId
    && later.tags == tx.tags && later.tlp == tx.tlp && later.rawJson == tx.rawJson
    && later.createdAtMs == tx.createdAtMs
  }

  predicate SameSignature(tx: Transaction, later: Transaction) {
    && later.compressed == tx.compressed && later.signature == tx.signature
    && later.signerCertFingerprint == tx.signerCertFingerprint
  }

  /** What may happen to a transaction over time. */
  predicate Evolves(tx: Transaction, later: Transaction) {
    && SameSource(tx, later)
    && (!tx.state.Validated? ==> SameSignature(tx, later))
    && Reaches(tx.state, later.state)
    && tx.retryCount <= later.retryCount
  }

  /** What may happen to it in one action: at most one move along the path and one more attempt. */
  predicate Moves(tx: Transaction, later: Transaction) {
    && SameSource(tx, later)
    && (!tx.state.Validated? ==> SameSignature(tx, later))
    && (later.state == tx.state || later.state in Successors(tx.state))
    && tx.retryCount <= later.retryCount <= tx.retryCount + 1
    && (later.retryCount > tx.retryCount ==> tx.state in {PolicyApproved, Sending} && later.state.Sending?)
  }

  lemma MoveEvolves(tx: Transaction, later: Transaction)
    requires Moves(tx, later)
    ensures Evolves(tx, later)
  {
  }

  lemma EvolvesTransitive(a: Transaction, b: Transaction, c: Transaction)
    requires Evolves(a, b) && Evolves(b, c)
    ensures Evolves(a, c)
  {
  }

  // ----- One action -----

  /** A queue grew at its end or lost its head. */
  predicate QueueKeeps(queue: seq<Transaction>, after: seq<Transaction>, moved: Transaction) {
    queue <= after || (queue != [] && queue[0] == moved && after == queue[1..])
  }

  /** A hand was empty, is as it was, or gave away what it held. */
  predicate HandKeeps(hand: seq<Transaction>, after: seq<Transaction>, moved: Transaction) {
    hand == [] || after == hand || hand == [moved]
  }

  /** Only `moved` may have left its place. */
  ghost predicate OnlyMoves(s: State, s': State, moved: Transaction) {
    && s.finished <= s'.finished && s.rejected <= s'.rejected && s.dropped <= s'.dropped
    && QueueKeeps(s.extracted, s'.extracted, moved) && QueueKeeps(s.signed, s'.signed, moved)
    && QueueKeeps(s.outgoing, s'.outgoing, moved)
    && HandKeeps(Held(s.extractor), Held(s'.extractor), moved) && HandKeeps(Held(s.signer), Held(s'.signer), moved)
    && HandKeeps(Held(s.pep), Held(s'.pep), moved) && HandKeeps(HeldInHand(s.sender), HeldInHand(s'.sender), moved)
  }

  lemma InQueue(queue: seq<Transaction>, after: seq<Transaction>, moved: Transaction, tx: Transaction)
    requires QueueKeeps(queue, after, moved) && tx in queue && tx != moved
    ensures tx in after
  {
    if !(queue <= after) {
      assert queue == [queue[0]] + queue[1..];
    }
  }

  lemma OthersStay(s: State, s': State, moved: Transaction, tx: Transaction)
    requires OnlyMoves(s, s', moved) && Somewhere(s, tx) && tx != moved
    ensures Somewhere(s', tx)
  {
    Places(s, tx);
    Places(s', tx);
    if tx in s.extracted {
      InQueue(s.extracted, s'.extracted, moved, tx);
    } else if tx in s.signed {
      InQueue(s.signed, s'.signed, moved, tx);
    } else if tx in s.outgoing {
      InQueue(s.outgoing, s'.outgoing, moved, tx);
    }
  }

  /** `moved` has become `later`, by at most one move along its path, and the others are where they were. */
  ghost predicate MovesOne(s: State, s': State, moved: Transaction, later: Transaction) {
    OnlyMoves(s, s', moved) && Somewhere(s', later) && Moves(moved, later)
  }

  lemma ExtractorMoves(setup: Setup, s: State, a: Action) returns (moved: Transaction, later: Transaction)
    requires Enabled(setup, s, a) && (a.Extract? || a.ExtractorPut?)
    ensures MovesOne(s, Apply(setup, s, a), moved, later)
  {
    moved := if a.Extract? then a.tx else s.extractor.value;
    later := moved;
    Places(Apply(setup, s, a), later);
  }

  lemma SignerMoves(setup: Setup, s: State, a: Action) returns (moved: Transaction, later: Transaction)
    requires Placed(setup, s) && Enabled(setup, s, a) && (a.SignerTake? || a.SignerRaises? || a.SignerPut?)
    ensures MovesOne(s, Apply(setup, s, a), moved, later)
  {
    moved := if a.SignerPut? then s.signer.value else s.extracted[0];
    later := moved;
    if a.SignerTake? {
      assert Fresh(moved);
      later := SignedBy(setup, moved, a.signature);
    }
    Places(Apply(setup, s, a), later);
  }

  lemma PepMoves(setup: Setup, s: State, a: Action) returns (moved: Transaction, later: Transaction)
    requires Placed(setup, s) && Enabled(setup, s, a) && (a.PepRaises? || a.PepPut?)
    ensures MovesOne(s, Apply(setup, s, a), moved, later)
  {
    moved := if a.PepPut? then s.pep.value else s.signed[0];
    later := moved;
    Places(Apply(setup, s, a), later);
  }

  /** The policy stage holds `later`, or has refused it. */
  lemma JudgeResult(setup: Setup, s: State, tx: Transaction)
    requires s.pep.None?
    ensures var s' := Judge(setup, s, tx);
            && s' == s.(pep := s'.pep, rejected := s'.rejected, deadLetters := s'.deadLetters)
            && (if Permitted(setup, tx) then s'.pep == Some(tx.(state := PolicyApproved)) && s'.rejected == s.rejected
                else s'.pep.None? && s'.rejected == s.rejected + [tx.(state := PolicyRejected)])
  {
  }

  lemma JudgeMoves(setup: Setup, s: State) returns (moved: Transaction, later: Transaction)
    requires Placed(setup, s) && Enabled(setup, s, PepTake)
    ensures MovesOne(s, Apply(setup, s, PepTake), moved, later)
  {
    moved := s.signed[0];
    assert AwaitsPolicy(setup, moved);
    later := moved.(state := if Permitted(setup, moved) then PolicyApproved else PolicyRejected);
    JudgeResult(setup, s.(signed := s.signed[1..]), moved);
    Places(Apply(setup, s, PepTake), later);
  }

  /** The transmission worker holds `later`, or has finished with it. */
  ghost predicate Transmits(s: State, s': State, later: Transaction) {
    && s' == s.(sender := s'.sender, finished := s'.finished, deadLetters := s'.deadLetters)
    && (if s'.sender.Some? then s'.sender.value.tx == later && s'.finished == s.finished
        else s'.finished == s.finished + [later])
  }

  lemma TransmitsIsSomewhere(s: State, s': State, moved: Transaction, later: Transaction)
    requires Transmits(s, s', later) && (s.sender.None? || s.sender.value.tx == moved)
    ensures OnlyMoves(s, s', moved) && Somewhere(s', later)
  {
    Places(s', later);
    if s'.sender.None? {
      assert later in s'.finished;
    } else {
      assert HeldInHand(s'.sender) == [later];
    }
  }

  lemma TakeTransmits(setup: Setup, s: State, tx: Transaction) returns (later: Transaction)
    requires s.sender.None? && tx.state.PolicyApproved?
    ensures Transmits(s, Take(setup, s, tx), later) && Moves(tx, later)
  {
    later := match setup.routing(tx.recipientId)
             case NoRoute => tx.(state := Failed)
             case Misconfigured => tx
             case Route => if tx.retryCount < setup.maxAttempts then Attempting(tx) else tx;
  }

  lemma TakeMoves(setup: Setup, s: State) returns (moved: Transaction, later: Transaction)
    requires Placed(setup, s) && Enabled(setup, s, SenderTake)
    ensures MovesOne(s, Apply(setup, s, SenderTake), moved, later)
  {
    moved := s.outgoing[0];
    assert Approved(setup, moved);
    var rest := s.(outgoing := s.outgoing[1..]);
    later := TakeTransmits(setup, rest, moved);
    TransmitsIsSomewhere(rest, Take(setup, rest, moved), moved, later);
  }

  lemma ConcludeTransmits(setup: Setup, s: State, tx: Transaction, attempt: Attempt) returns (later: Transaction)
    requires tx.state.Sending?
    ensures Transmits(s, Conclude(setup, s, tx, attempt), later) && Moves(tx, later)
  {
    var next := AfterAttempt(setup.maxAttempts, tx.retryCount, attempt);
    later := if next.Done? then tx.(state := next.state) else tx;
  }

  lemma ConcludeMoves(setup: Setup, s: State, attempt: Attempt) returns (moved: Transaction, later: Transaction)
    requires Placed(setup, s) && s.sender.Some?
    ensures MovesOne(s, Conclude(setup, s, s.sender.value.tx, attempt), moved, later)
  {
    moved := s.sender.value.tx;
    later := ConcludeTransmits(setup, s, moved, attempt);
    TransmitsIsSomewhere(s, Conclude(setup, s, moved, attempt), moved, later);
  }

  lemma HandMoves(setup: Setup, s: State, a: Action) returns (moved: Transaction, later: Transaction)
    requires Placed(setup, s) && Enabled(setup, s, a) && (a.SessionOpens? || a.Wake?)
    ensures MovesOne(s, Apply(setup, s, a), moved, later)
  {
    moved := s.sender.value.tx;
    later := if a.Wake? then Attempting(moved) else moved;
    TransmitsIsSomewhere(s, Apply(setup, s, a), moved, later);
  }

  /** Each action moves one transaction, at most one move along its path. */
  lemma OneMoves(setup: Setup, s: State, a: Action) returns (moved: Transaction, later: Transaction)
    requires Placed(setup, s) && Enabled(setup, s, a)
    ensures MovesOne(s, Apply(setup, s, a), moved, later)
  {
    match a
    case Extract(_) | ExtractorPut => moved, later := ExtractorMoves(setup, s, a);
    case SignerTake(_) | SignerRaises | SignerPut => moved, later := SignerMoves(setup, s, a);
    case PepRaises | PepPut => moved, later := PepMoves(setup, s, a);
    case PepTake => moved, later := JudgeMoves(setup, s);
    case SenderTake => moved, later := TakeMoves(setup, s);
    case SessionFails => moved, later := ConcludeMoves(setup, s, SessionFailed);
    case SendReturns(result) => moved, later := ConcludeMoves(setup, s, Answered(result));
    case SessionOpens | Wake => moved, later := HandMoves(setup, s, a);
  }

  /** In one action every transaction stays somewhere and makes at most one move along its path. */
  lemma ActionMoves(setup: Setup, s: State, a: Action, tx: Transaction) returns (later: Transaction)
    requires Placed(setup, s) && Enabled(setup, s, a) && Somewhere(s, tx)
    ensures Somewhere(Apply(setup, s, a), later) && Moves(tx, later)
  {
    var moved, after := OneMoves(setup, s, a);
    if tx == moved {
      later := after;
    } else {
      later := tx;
      OthersStay(s, Apply(setup, s, a), moved, tx);
    }
  }

  // ----- Over a run -----

  lemma EvolvesOnce(setup: Setup, s: State, a: Action, tx: Transaction, now: Transaction) returns (later: Transaction)
    requires Placed(setup, s) && Enabled(setup, s, a) && Somewhere(s, now) && Evolves(tx, now)
    ensures Somewhere(Apply(setup, s, a), later) && Evolves(tx, later)
  {
    later := ActionMoves(setup, s, a, now);
    MoveEvolves(now, later);
    EvolvesTransitive(tx, now, later);
  }

  lemma PlacedInRun(setup: Setup, actions: seq<Action>, states: seq<State>, i: nat)
    requires IsRun(setup, actions, states) && i <= |actions|
    ensures Placed(setup, states[i])
  {
    RunsAreSafe(setup, actions, states, i);
  }

  /** A transaction that exists at one moment of a run exists at every later one, further along its path. */
  lemma {:induction false} StaysSomewhere(setup: Setup, actions: seq<Action>, states: seq<State>, i: nat, i': nat,
                                          tx: Transaction)
    returns (later: Transaction)
    requires IsRun(setup, actions, states) && i <= i' <= |actions| && Somewhere(states[i], tx)
    ensures Somewhere(states[i'], later) && Evolves(tx, later)
    decreases i' - i
  {
    if i == i' {
      later := tx;
      MoveEvolves(tx, tx);
    } else {
      var before := StaysSomewhere(setup, actions, states, i, i' - 1, tx);
      PlacedInRun(setup, actions, states, i' - 1);
      later := EvolvesOnce(setup, states[i' - 1], actions[i' - 1], tx, before);
    }
  }

  /**
   * The history of a transaction: between any two moments of any run it only moves along VALIDATED, SIGNED,
   * POLICY_APPROVED or POLICY_REJECTED, then SENDING or FAILED, then ACKED or FAILED; its attempts never decrease;
   * what extraction fixed stays, and so do the bundle and signature once made.
   */
  lemma History(setup: Setup, actions: seq<Action>, states: seq<State>, i: nat, i': nat, tx: Transaction,
                later: Transaction)
    requires IsRun(setup, actions, states) && i <= i' <= |actions|
    requires Somewhere(states[i], tx) && Somewhere(states[i'], later) && tx.id == later.id
    ensures Evolves(tx, later)
  {
    var found := StaysSomewhere(setup, actions, states, i, i', tx);
    RunsAreSafe(setup, actions, states, i');
    SameIdSameTransaction(states[i'], found, later);
  }

  /** The buckets and the dead letters grew at their ends. */
  predicate EndsGrow(s: State, s': State) {
    && s.finished <= s'.finished && s.rejected <= s'.rejected && s.dropped <= s'.dropped
    && s.deadLetters <= s'.deadLetters
  }

  lemma TransmissionOnlyGrows(setup: Setup, s: State, tx: Transaction, attempt: Attempt)
    ensures EndsGrow(s, Conclude(setup, s, tx, attempt)) && EndsGrow(s, Take(setup, s, tx))
  {
  }

  lemma EndsOnlyGrow(setup: Setup, s: State, a: Action)
    requires Enabled(setup, s, a)
    ensures EndsGrow(s, Apply(setup, s, a))
  {
    match a
    case SenderTake => TransmissionOnlyGrows(setup, s.(outgoing := s.outgoing[1..]), s.outgoing[0], SessionFailed);
    case SessionFails => TransmissionOnlyGrows(setup, s, s.sender.value.tx, SessionFailed);
    case SendReturns(result) => TransmissionOnlyGrows(setup, s, s.sender.value.tx, Answered(result));
    case _ =>
  }

  lemma EndsGrowTransitive(a: State, b: State, c: State)
    requires EndsGrow(a, b) && EndsGrow(b, c)
    ensures EndsGrow(a, c)
  {
  }

  /** Ended transactions do not change, nor do dead letters: each bucket only grows at its end. */
  lemma {:induction false} EndsAreFinal(setup: Setup, actions: seq<Action>, states: seq<State>, i: nat, i': nat)
    requires IsRun(setup, actions, states) && i <= i' <= |actions|
    ensures EndsGrow(states[i], states[i'])
    decreases i' - i
  {
    if i < i' {
      EndsAreFinal(setup, actions, states, i, i' - 1);
      EndsOnlyGrow(setup, states[i' - 1], actions[i' - 1]);
      EndsGrowTransitive(states[i], states[i' - 1], states[i']);
    }
  }

  /** From the moment it ended on, the transaction with this id is the one that ended. */
  lemma EndedStaysAsIs(setup: Setup, actions: seq<Action>, states: seq<State>, i: nat, i': nat, tx: Transaction,
                       later: Transaction)
    requires IsRun(setup, actions, states) && i <= i' <= |actions|
    requires tx in states[i].finished || tx in states[i].rejected || tx in states[i].dropped
    requires Somewhere(states[i'], later) && tx.id == later.id
    ensures later == tx
  {
    EndsAreFinal(setup, actions, states, i, i');
    RunsAreSafe(setup, actions, states, i');
    Places(states[i'], tx);
    SameIdSameTransaction(states[i'], tx, later);
  }

  lemma IdIsAmong(txs: seq<Transaction>, id: string) returns (tx: Transaction)
    requires id in multiset(Ids(txs))
    ensures tx in txs && tx.id == id
  {
    var k :| 0 <= k < |txs| && Ids(txs)[k] == id;
    tx := txs[k];
  }

  /** Every transaction created is somewhere, then and at every later moment of the run, further along its path. */
  lemma CreatedHasHistory(setup: Setup, actions: seq<Action>, states: seq<State>, i: nat, i': nat, id: string)
    returns (tx: Transaction, later: Transaction)
    requires IsRun(setup, actions, states) && i <= i' <= |actions| && id in Ids(states[i].created)
    ensures Somewhere(states[i], tx) && Somewhere(states[i'], later) && tx.id == id && Evolves(tx, later)
  {
    RunsAreSafe(setup, actions, states, i);
    OnePlace(states[i]);
    tx := IdIsAmong(All(states[i]), id);
    later := StaysSomewhere(setup, actions, states, i, i', tx);
  }

  // ----- What the dead letters say -----

  /** Why a FAILED transaction failed. */
  predicate FailureReason(setup: Setup, tx: Transaction, reason: string) {
    match setup.routing(tx.recipientId)
    case NoRoute => reason == "UNKNOWN_RECIPIENT_ROUTING"
    case Misconfigured => false
    case Route => (reason == "MAX_RETRIES_EXCEEDED" && tx.retryCount == setup.maxAttempts) || "NACK_" <= reason
  }

  /** The letter of a transaction that failed, or that policy refused. */
  predicate LetterOf(setup: Setup, tx: Transaction, e: Entry) {
    && e.transactionId == tx.id && e.state == tx.state
    && match tx.state
       case Failed => FailureReason(setup, tx, e.reason)
       case PolicyRejected =>
         if tx.tlp in setup.policy then e.reason == "POLICY_DENIED_UNAUTHORIZED_RECIPIENT"
         else e.reason == "POLICY_DENIED_UNKNOWN_TLP"
       case _ => false
  }

  ghost predicate HasOwner(setup: Setup, s: State, e: Entry) {
    exists tx :: (tx in s.finished || tx in s.rejected) && LetterOf(setup, tx, e)
  }

  ghost predicate AllOwned(setup: Setup, s: State) {
    forall i :: 0 <= i < |s.deadLetters| ==> HasOwner(setup, s, s.deadLetters[i])
  }

  lemma OwnersStay(setup: Setup, s: State, s': State, e: Entry)
    requires EndsGrow(s, s') && HasOwner(setup, s, e)
    ensures HasOwner(setup, s', e)
  {
    var tx :| (tx in s.finished || tx in s.rejected) && LetterOf(setup, tx, e);
    assert tx in s'.finished || tx in s'.rejected;
  }

  /** The last letter, if there is a new one, has its owner. */
  ghost predicate NewOwned(setup: Setup, s: State, s': State) {
    || s'.deadLetters == s.deadLetters
    || (|s'.deadLetters| == |s.deadLetters| + 1 && HasOwner(setup, s', s'.deadLetters[|s.deadLetters|]))
  }

  lemma LetterIsOwned(setup: Setup, s: State, tx: Transaction, e: Entry)
    requires (tx in s.finished || tx in s.rejected) && LetterOf(setup, tx, e)
    ensures HasOwner(setup, s, e)
  {
  }

  lemma ConcludeOwns(setup: Setup, s: State, attempt: Attempt)
    requires Placed(setup, s) && s.sender.Some?
    ensures NewOwned(setup, s, Conclude(setup, s, s.sender.value.tx, attempt))
  {
    var tx := s.sender.value.tx;
    var s' := Conclude(setup, s, tx, attempt);
    var next := AfterAttempt(setup.maxAttempts, tx.retryCount, attempt);
    if next.Done? && next.deadLetter.Some? {
      var ended := tx.(state := next.state);
      assert s'.finished == s.finished + [ended];
      LetterIsOwned(setup, s', ended, s'.deadLetters[|s.deadLetters|]);
    }
  }

  lemma TakeOwns(setup: Setup, s: State)
    requires Placed(setup, s) && Enabled(setup, s, SenderTake)
    ensures NewOwned(setup, s, Apply(setup, s, SenderTake))
  {
    var s' := Apply(setup, s, SenderTake);
    if s'.deadLetters != s.deadLetters {
      var failed := s.outgoing[0].(state := Failed);
      assert s'.finished == s.finished + [failed];
      LetterIsOwned(setup, s', failed, s'.deadLetters[|s.deadLetters|]);
    }
  }

  lemma JudgeOwns(setup: Setup, s: State)
    requires Placed(setup, s) && Enabled(setup, s, PepTake)
    ensures NewOwned(setup, s, Apply(setup, s, PepTake))
  {
    var s' := Apply(setup, s, PepTake);
    if s'.deadLetters != s.deadLetters {
      var refused := s.signed[0].(state := PolicyRejected);
      assert s'.rejected == s.rejected + [refused];
      LetterIsOwned(setup, s', refused, s'.deadLetters[|s.deadLetters|]);
    }
  }

  lemma ActionOwns(setup: Setup, s: State, a: Action)
    requires Placed(setup, s) && Enabled(setup, s, a)
    ensures NewOwned(setup, s, Apply(setup, s, a))
  {
    match a
    case SenderTake => TakeOwns(setup, s);
    case PepTake => JudgeOwns(setup, s);
    case SessionFails => ConcludeOwns(setup, s, SessionFailed);
    case SendReturns(result) => ConcludeOwns(setup, s, Answered(result));
    case _ =>
  }

  lemma NewOwnedKeeps(setup: Setup, s: State, s': State)
    requires AllOwned(setup, s) && NewOwned(setup, s, s') && EndsGrow(s, s')
    ensures AllOwned(setup, s')
  {
    forall i | 0 <= i < |s'.deadLetters|
      ensures HasOwner(setup, s', s'.deadLetters[i])
    {
      if i < |s.deadLetters| {
        assert s'.deadLetters[i] == s.deadLetters[i];
        OwnersStay(setup, s, s', s.deadLetters[i]);
      }
    }
  }

  /**
   * Dead letters say the truth: in every run each is of a transaction that policy refused, with the reason, or that
   * FAILED: without a route, after the last allowed attempt, or on a refusal it names.
   */
  lemma {:induction false} LettersAreTrue(setup: Setup, actions: seq<Action>, states: seq<State>, i: nat)
    requires IsRun(setup, actions, states) && i <= |actions|
    ensures AllOwned(setup, states[i])
  {
    if i > 0 {
      LettersAreTrue(setup, actions, states, i - 1);
      PlacedInRun(setup, actions, states, i - 1);
      ActionOwns(setup, states[i - 1], actions[i - 1]);
      EndsOnlyGrow(setup, states[i - 1], actions[i - 1]);
      NewOwnedKeeps(setup, states[i - 1], states[i]);
    }
  }

  // ----- Work in flight can be finished -----

  /** As long as work is in flight, some worker can act without a new event, and without raising if signing works. */
  lemma SomeWorkerCanAct(setup: Setup, s: State, sign: seq<byte> -> seq<byte>) returns (a: Action)
    requires InFlight(s) > 0
    ensures !a.Extract? && Enabled(setup, s, a)
    ensures !a.PepRaises? && ((forall data :: setup.isSignature(data, sign(data))) ==> !a.SignerRaises?)
  {
    if s.sender.Some? {
      a := match s.sender.value.stage
           case Opening => SessionOpens
           case Waiting => SendReturns(SendResult(true, "ACK"))
           case Sleeping => Wake;
    } else if s.outgoing != [] {
      a := SenderTake;
    } else if s.pep.Some? {
      a := PepPut;
    } else if s.signed != [] {
      a := PepTake;
    } else if s.signer.Some? {
      a := SignerPut;
    } else if s.extracted != [] {
      var bundle := setup.compress(s.extracted[0].rawJson);
      a := if setup.isSignature(bundle, sign(bundle)) then SignerTake(sign(bundle)) else SignerRaises;
    } else {
      a := ExtractorPut;
    }
  }

  function Count(tx: Option<Transaction>): nat {
    if tx.Some? then 1 else 0
  }

  /** Transactions that have not begun transmission. */
  function Ahead(s: State): nat {
    Count(s.extractor) + |s.extracted| + Count(s.signer) + |s.signed| + Count(s.pep) + |s.outgoing|
  }

  /** The actions of one transmission: three for each attempt. */
  function PerTransmission(setup: Setup): nat {
    if setup.maxAttempts > 0 then 3 * setup.maxAttempts else 0
  }

  /** The actions the transaction in transmission can still take. */
  function HandWork(setup: Setup, hand: Option<Hand>): int {
    if hand.None? then 0
    else
      3 * (setup.maxAttempts - hand.value.tx.retryCount) +
      match hand.value.stage
      case Opening => 2
      case Waiting => 1
      case Sleeping => 0
  }

  /** The stages still ahead of those that have not begun transmission. */
  function StageWork(s: State): nat {
    6 * Count(s.extractor) + 5 * |s.extracted| + 4 * Count(s.signer) + 3 * |s.signed| + 2 * Count(s.pep) + |s.outgoing|
  }

  /** An upper bound on the actions that can happen before the next extraction. */
  function Work(setup: Setup, s: State): int {
    PerTransmission(setup) * Ahead(s) + StageWork(s) + HandWork(setup, s.sender)
  }

  lemma OneFewer(k: nat, n: nat)
    ensures k * (n + 1) == k * n + k
  {
  }

  lemma WorkIsNatural(setup: Setup, s: State)
    requires Placed(setup, s)
    ensures Work(setup, s) >= 0 && HandWork(setup, s.sender) >= 0
  {
    assert PerTransmission(setup) * Ahead(s) >= 0;
  }

  lemma LosesWork(setup: Setup, s: State, s': State)
    requires Ahead(s) == Ahead(s') + 1 && StageWork(s') <= StageWork(s)
    requires HandWork(setup, s'.sender) + StageWork(s') <
             HandWork(setup, s.sender) + PerTransmission(setup) + StageWork(s)
    ensures Work(setup, s') < Work(setup, s)
  {
    OneFewer(PerTransmission(setup), Ahead(s'));
  }

  lemma DroppingWorks(setup: Setup, s: State, a: Action)
    requires Enabled(setup, s, a) && (a.SignerRaises? || a.PepRaises?)
    ensures Work(setup, Apply(setup, s, a)) < Work(setup, s)
  {
    LosesWork(setup, s, Apply(setup, s, a));
  }

  lemma JudgingWorks(setup: Setup, s: State)
    requires Enabled(setup, s, PepTake)
    ensures Work(setup, Apply(setup, s, PepTake)) < Work(setup, s)
  {
    JudgeResult(setup, s.(signed := s.signed[1..]), s.signed[0]);
    if !Permitted(setup, s.signed[0]) {
      LosesWork(setup, s, Apply(setup, s, PepTake));
    }
  }

  lemma TakenWork(setup: Setup, s: State, tx: Transaction)
    requires s.sender.None? && tx.retryCount == 0
    ensures var s' := Take(setup, s, tx);
            && s' == s.(sender := s'.sender, finished := s'.finished, deadLetters := s'.deadLetters)
            && HandWork(setup, s'.sender) <= PerTransmission(setup)
  {
  }

  lemma BeginningWorks(setup: Setup, s: State)
    requires Placed(setup, s) && Enabled(setup, s, SenderTake)
    ensures Work(setup, Apply(setup, s, SenderTake)) < Work(setup, s)
  {
    assert Approved(setup, s.outgoing[0]);
    TakenWork(setup, s.(outgoing := s.outgoing[1..]), s.outgoing[0]);
    LosesWork(setup, s, Apply(setup, s, SenderTake));
  }

  lemma ConcludedHand(setup: Setup, s: State, attempt: Attempt)
    requires Placed(setup, s) && s.sender.Some? && !s.sender.value.stage.Sleeping?
    ensures var s' := Conclude(setup, s, s.sender.value.tx, attempt);
            && s' == s.(sender := s'.sender, finished := s'.finished, deadLetters := s'.deadLetters)
            && HandWork(setup, s'.sender) < HandWork(setup, s.sender)
  {
  }

  lemma ConcludingWorks(setup: Setup, s: State, attempt: Attempt)
    requires Placed(setup, s) && s.sender.Some? && !s.sender.value.stage.Sleeping?
    ensures Work(setup, Conclude(setup, s, s.sender.value.tx, attempt)) < Work(setup, s)
  {
    ConcludedHand(setup, s, attempt);
  }

  lemma ExtractingWorks(setup: Setup, s: State, tx: Transaction)
    requires Enabled(setup, s, Extract(tx))
    ensures Work(setup, Apply(setup, s, Extract(tx))) == Work(setup, s) + PerTransmission(setup) + 6
  {
    assert Ahead(Apply(setup, s, Extract(tx))) == Ahead(s) + 1;
    OneFewer(PerTransmission(setup), Ahead(s));
  }

  lemma MovingWorks(setup: Setup, s: State, a: Action)
    requires Placed(setup, s) && Enabled(setup, s, a)
    requires a.ExtractorPut? || a.SignerTake? || a.SignerPut? || a.PepPut? || a.SessionOpens? || a.Wake?
    ensures Work(setup, Apply(setup, s, a)) < Work(setup, s)
  {
    assert Ahead(Apply(setup, s, a)) == Ahead(s);
  }

  lemma ActionWorks(setup: Setup, s: State, a: Action)
    requires Placed(setup, s) && Enabled(setup, s, a)
    ensures var s' := Apply(setup, s, a);
            if a.Extract? then Work(setup, s') == Work(setup, s) + PerTransmission(setup) + 6
            else Work(setup, s') < Work(setup, s)
  {
    if a.Extract? {
      ExtractingWorks(setup, s, a.tx);
    } else if a.SignerRaises? || a.PepRaises? {
      DroppingWorks(setup, s, a);
    } else if a.PepTake? {
      JudgingWorks(setup, s);
    } else if a.SenderTake? {
      BeginningWorks(setup, s);
    } else if a.SessionFails? {
      ConcludingWorks(setup, s, SessionFailed);
    } else if a.SendReturns? {
      ConcludingWorks(setup, s, Answered(a.result));
    } else {
      MovingWorks(setup, s, a);
    }
  }

  function OtherActions(actions: seq<Action>): nat {
    if actions == [] then 0
    else OtherActions(actions[..|actions| - 1]) + if actions[|actions| - 1].Extract? then 0 else 1
  }

  lemma OnlyExtractCreates(setup: Setup, s: State, a: Action)
    requires Enabled(setup, s, a) && !a.Extract?
    ensures Apply(setup, s, a).created == s.created
    ensures !a.SignerRaises? && !a.PepRaises? ==> Apply(setup, s, a).dropped == s.dropped
  {
  }

  /** What one action adds to the account of actions, work left and transactions created. */
  lemma AccountStep(setup: Setup, s: State, a: Action, done: nat)
    requires Placed(setup, s) && Enabled(setup, s, a)
    requires done + Work(setup, s) <= (PerTransmission(setup) + 6) * |s.created|
    ensures var s' := Apply(setup, s, a);
            done + (if a.Extract? then 0 else 1) + Work(setup, s') <= (PerTransmission(setup) + 6) * |s'.created|
  {
    ActionWorks(setup, s, a);
    if a.Extract? {
      OneFewer(PerTransmission(setup) + 6, |s.created|);
    } else {
      OnlyExtractCreates(setup, s, a);
    }
  }

  lemma AccountStart(setup: Setup)
    ensures Work(setup, INITIAL) == 0
  {
    assert Ahead(INITIAL) == 0;
  }

  /**
   * No run is busy for ever without new events: the actions other than extraction are at most six and three for
   * each allowed attempt, per transaction created.
   */
  lemma {:induction false} ActionsAreBounded(setup: Setup, actions: seq<Action>, states: seq<State>, i: nat)
    requires IsRun(setup, actions, states) && i <= |actions|
    ensures 0 <= Work(setup, states[i])
    ensures OtherActions(actions[..i]) + Work(setup, states[i]) <= (PerTransmission(setup) + 6) * |states[i].created|
  {
    if i == 0 {
      AccountStart(setup);
    } else {
      ActionsAreBounded(setup, actions, states, i - 1);
      PlacedInRun(setup, actions, states, i - 1);
      AccountStep(setup, states[i - 1], actions[i - 1], OtherActions(actions[..i - 1]));
      assert actions[..i][..i - 1] == actions[..i - 1];
    }
    PlacedInRun(setup, actions, states, i);
    WorkIsNatural(setup, states[i]);
  }

  lemma ActFirst(setup: Setup, s: State, a: Action, rest: seq<Action>)
    requires Enabled(setup, s, a)
    ensures After(setup, s, [a] + rest) == After(setup, Apply(setup, s, a), rest)
  {
    AfterOneMore(setup, s, [], s, a);
    assert [] + [a] == [a];
    AfterConcat(setup, s, [a], Apply(setup, s, a), rest);
  }

  /**
   * From every state the invariants allow, the work in flight can be finished without a new event, and without
   * losing a transaction to an exception if signing works.
   */
  lemma {:induction false} CanFinish(setup: Setup, s: State, sign: seq<byte> -> seq<byte>)
    returns (actions: seq<Action>, s': State)
    requires Inv(setup, s)
    ensures After(setup, s, actions) == Some(s') && InFlight(s') == 0 && s'.created == s.created
    ensures |actions| <= Work(setup, s)
    ensures (forall data :: setup.isSignature(data, sign(data))) ==> s'.dropped == s.dropped
    decreases Work(setup, s)
  {
    WorkIsNatural(setup, s);
    if InFlight(s) <= 0 {
      actions, s' := [], s;
    } else {
      var a := SomeWorkerCanAct(setup, s, sign);
      var next := Apply(setup, s, a);
      ActionWorks(setup, s, a);
      ApplyKeepsInv(setup, s, a);
      OnlyExtractCreates(setup, s, a);
      var rest;
      rest, s' := CanFinish(setup, next, sign);
      ActFirst(setup, s, a, rest);
      actions := [a] + rest;
    }
  }
}
