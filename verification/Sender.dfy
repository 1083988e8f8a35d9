/** A transaction of gateway A and the exchange of one envelope for one response. */
module Exchange {
  import opened Basics
  import opened FrameCodec
  import opened Envelope
  import opened Responses

  datatype TransactionState =
    Received | Validated | Signed | PolicyApproved | PolicyRejected | Sending | Acked | Failed | DeadLettered

  /** `tags` are the tag names of the MISP event the bundle was made from. */
  datatype Transaction = Transaction(
    id: string, senderId: string, recipientId: string, tags: seq<string>, tlp: Tlp, rawJson: seq<byte>,
    compressed: seq<byte>, signature: seq<byte>, signerCertFingerprint: string, createdAtMs: int,
    state: TransactionState, retryCount: nat)

  /**
   * The object that the workers pass on and update. `loggedRetryCount` is the attempt count of its telemetry
   * record, if one was written.
   */
  class GatewayATransaction {
    const id: string
    const senderId: string
    const recipientId: string
    const tags: seq<string>
    const tlp: Tlp
    const rawJson: seq<byte>
    const createdAtMs: int
    var compressed: seq<byte>
    var signature: seq<byte>
    var signerCertFingerprint: string
    var state: TransactionState
    var retryCount: nat
    var loggedRetryCount: Option<nat>

    constructor (t: Transaction)
      ensures Value() == t && loggedRetryCount == None
    {
      id, senderId, recipientId, tags, tlp := t.id, t.senderId, t.recipientId, t.tags, t.tlp;
      rawJson, createdAtMs, compressed, signature := t.rawJson, t.createdAtMs, t.compressed, t.signature;
      signerCertFingerprint, state, retryCount := t.signerCertFingerprint, t.state, t.retryCount;
      loggedRetryCount := None;
    }

    ghost function Value(): Transaction
      reads this
    {
      Transaction(id, senderId, recipientId, tags, tlp, rawJson, compressed, signature, signerCertFingerprint,
                  createdAtMs, state, retryCount)
    }
  }

  function EnvelopeOf(t: Transaction): TransactionEnvelope {
    TransactionEnvelope(t.id, t.senderId, t.recipientId, t.tlp, t.compressed, t.signature,
                        t.signerCertFingerprint, t.createdAtMs)
  }

  /** The hand-packed frame; None when serializing or packing raises, in which case nothing is written. */
  function FrameOf(t: Transaction): Option<seq<byte>> {
    match ToBytes(EnvelopeOf(t))
    case Err(_) => None
    case Ok(payload) =>
      if |payload| >= U32_LIMIT then None
      else Some([TypeByte(SignedBundle)] + PackU32(|payload|) + payload)
  }

  /** The sender's own framing is that of the shared codec for every payload the codec accepts. */
  lemma FramingAgrees(cap: int, t: Transaction)
    requires FrameOf(t).Some?
    ensures var payload := ToBytes(EnvelopeOf(t)).value;
            |payload| <= cap ==> EncodeFrame(cap, SignedBundle, payload) == Ok(FrameOf(t).value)
    ensures var payload := ToBytes(EnvelopeOf(t)).value;
            |payload| > cap ==> DecodeFrameStream(cap, FrameOf(t).value) == Err(OversizedFrame)
  {
    var payload := ToBytes(EnvelopeOf(t)).value;
    UnpackPack(|payload|);
    assert FrameOf(t).value[1..HEADER_SIZE] == PackU32(|payload|);
  }

  /** The envelope carries the transaction's own fields, each in its place. */
  predicate Carries(e: TransactionEnvelope, t: Transaction) {
    && e.transactionId == t.id && e.senderId == t.senderId && e.recipientId == t.recipientId
    && e.tlpMarking == t.tlp && e.stixBundleCompressed == t.compressed && e.signature == t.signature
    && e.signerCertFingerprint == t.signerCertFingerprint && e.createdAtUnixMs == t.createdAtMs
  }

  /** What the receiver decodes from the sender's frame is the envelope the sender built, field by field. */
  lemma FrameCarriesEnvelope(cap: int, t: Transaction, payload: seq<byte>)
    requires FrameOf(t).Some? && DecodeFrame(cap, FrameOf(t).value) == Ok(Message(SignedBundle, payload))
    ensures FromBytes(payload) == Ok(EnvelopeOf(t)) && Carries(EnvelopeOf(t), t)
  {
    var sent := ToBytes(EnvelopeOf(t)).value;
    FramingAgrees(cap, t);
    if |sent| <= cap {
      FrameRoundTrip(cap, Message(SignedBundle, sent), FrameOf(t).value);
      EnvelopeRoundTrip(EnvelopeOf(t));
    }
  }

  // ----- Reading the response -----

  /** A decoded response body, as far as the sender looks at it. */
  datatype ReplyDocument = ReplyDocument(transactionId: Option<string>, reason: Option<string>)

  /** `json.loads`; None is a raised exception or a body that is not an object. */
  type Loads = seq<byte> -> Option<ReplyDocument>

  /** `json.dumps` of a response, encoded. */
  type Dumps = Response -> seq<byte>

  function DocumentOf(r: Response): ReplyDocument {
    ReplyDocument(Some(r.id), if r.AckOf? then None else Some(ReasonText(r.reason)))
  }

  /** All that is used about JSON: bodies have the size counted for them and decode to what was encoded. */
  ghost predicate JsonLaw(dumps: Dumps, loads: Loads) {
    forall r: Response :: (|dumps(r)| <= CAP <==> Fits(r)) && loads(dumps(r)) == Some(DocumentOf(r))
  }

  /** The bodies gateway B writes have the counted size, so the law only asks that they decode. */
  lemma JsonLawHolds(loads: Loads)
    requires forall r: Response :: loads(Body(r)) == Some(DocumentOf(r))
    ensures JsonLaw(Body, loads)
  {
    forall r: Response
      ensures |Body(r)| <= CAP <==> Fits(r)
    {
      FitsIsEncodable(r);
    }
  }

  /** The frame of a response, by `encode_frame`. */
  function ReplyFrame(dumps: Dumps, r: Response): Result<seq<byte>, FrameError> {
    EncodeFrame(CAP, MessageTypeOf(r), dumps(r))
  }

  datatype SendResult = SendResult(success: bool, reason: string)

  /** How a read that cannot be completed ends. */
  datatype Ending = TimedOut | Refused | Broken

  function EndingResult(e: Ending): SendResult {
    match e
    case TimedOut => SendResult(false, "TIMEOUT")
    case Refused => SendResult(false, "CONNECTION_REFUSED")
    case Broken => SendResult(false, "TRANSPORT_ERROR")
  }

  function Classify(loads: Loads, id: string, typeByte: byte, body: seq<byte>): SendResult {
    if typeByte == TypeByte(Ack) then
      match loads(body)
      case None => SendResult(false, "TRANSPORT_ERROR")
      case Some(doc) =>
        if doc.transactionId == Some(id) then SendResult(true, "ACK") else SendResult(false, "ACK_ID_MISMATCH")
    else if typeByte == TypeByte(Nack) then
      match loads(body)
      case None => SendResult(false, "TRANSPORT_ERROR")
      case Some(doc) => SendResult(false, if doc.reason.Some? then doc.reason.value else "UNKNOWN_NACK")
    else SendResult(false, "UNKNOWN_RESPONSE_TYPE")
  }

  /** The results for reads that do not complete. */
  lemma EndingTexts()
    ensures EndingResult(TimedOut) == SendResult(false, "TIMEOUT")
    ensures EndingResult(Refused) == SendResult(false, "CONNECTION_REFUSED")
    ensures EndingResult(Broken) == SendResult(false, "TRANSPORT_ERROR")
  {
  }

  /** The results for a complete response, by its type byte and what its body decodes to. */
  lemma Classification(loads: Loads, id: string, typeByte: byte, body: seq<byte>)
    ensures var r, doc := Classify(loads, id, typeByte, body), loads(body);
            && (r.success <==> typeByte == 2 && doc.Some? && doc.value.transactionId == Some(id))
            && (r.success ==> r.reason == "ACK")
            && (typeByte !in {2, 3} ==> r.reason == "UNKNOWN_RESPONSE_TYPE")
            && (typeByte in {2, 3} && doc.None? ==> r.reason == "TRANSPORT_ERROR")
            && (typeByte == 2 && doc.Some? && doc.value.transactionId != Some(id) ==> r.reason == "ACK_ID_MISMATCH")
            && (typeByte == 3 && doc.Some? && doc.value.reason.Some? ==> r.reason == doc.value.reason.value)
            && (typeByte == 3 && doc.Some? && doc.value.reason.None? ==> r.reason == "UNKNOWN_NACK")
  {
    TypeBytes(typeByte);
  }

  /** The outcome for the bytes that arrive before the stream ends as `ending` says. */
  function ReadResponse(loads: Loads, id: string, inbound: seq<byte>, ending: Ending): SendResult {
    if |inbound| < HEADER_SIZE then EndingResult(ending)
    else
      var len := UnpackU32(inbound[1..HEADER_SIZE]);
      if |inbound| < HEADER_SIZE + len then EndingResult(ending)
      else Classify(loads, id, inbound[0], inbound[HEADER_SIZE..HEADER_SIZE + len])
  }

  /** What the three reads make of any stream: five bytes, then as many as they declare, whatever their type. */
  lemma ReadsDeclared(loads: Loads, id: string, inbound: seq<byte>, ending: Ending)
    ensures |inbound| < 5 ==> ReadResponse(loads, id, inbound, ending) == EndingResult(ending)
    ensures |inbound| >= 5 ==>
              var n := DeclaredLength(inbound);
              ReadResponse(loads, id, inbound, ending) ==
              if |inbound| < 5 + n then EndingResult(ending) else Classify(loads, id, inbound[0], inbound[5..5 + n])
  {
    if |inbound| >= 5 {
      var h := inbound[1..HEADER_SIZE];
      assert h[0] == inbound[1] && h[1] == inbound[2] && h[2] == inbound[3] && h[3] == inbound[4];
      assert UnpackU32(h) == DeclaredLength(inbound);
    }
  }

  /** On every stream the shared codec finds a frame in, the sender sees the same type and payload. */
  lemma ReaderAgreesWithCodec(cap: int, loads: Loads, id: string, inbound: seq<byte>, ending: Ending)
    ensures var d := DecodeFrameStream(cap, inbound);
            d.Ok? ==> ReadResponse(loads, id, inbound, ending) ==
                      match d.value
                      case NeedMore => EndingResult(ending)
                      case Frame(t, payload, _) => Classify(loads, id, TypeByte(t), payload)
  {
  }

  /** What a response of gateway B means to the sender of `id`. */
  function Meaning(id: string, r: Response): SendResult {
    match r
    case AckOf(i) => if i == id then SendResult(true, "ACK") else SendResult(false, "ACK_ID_MISMATCH")
    case NackOf(_, reason) => SendResult(false, ReasonText(reason))
  }

  lemma CutFrame(loads: Loads, id: string, t: MessageType, payload: seq<byte>, n: nat, ending: Ending)
    requires EncodeFrame(CAP, t, payload).Ok? && n < |EncodeFrame(CAP, t, payload).value|
    ensures ReadResponse(loads, id, EncodeFrame(CAP, t, payload).value[..n], ending) == EndingResult(ending)
  {
    var frame := EncodeFrame(CAP, t, payload).value;
    if n >= HEADER_SIZE {
      assert frame[1..HEADER_SIZE] == PackU32(|payload|);
      assert frame[..n][1..HEADER_SIZE] == frame[1..HEADER_SIZE];
      UnpackPack(|payload|);
    }
  }

  /** Of several responses on one stream, cut off anywhere, the sender sees the first one or the cut. */
  lemma ReadsFirstResponse(dumps: Dumps, loads: Loads, id: string, r: Response, rest: seq<byte>, n: nat, ending: Ending)
    requires loads(dumps(r)) == Some(DocumentOf(r))
    requires ReplyFrame(dumps, r).Ok? && n <= |ReplyFrame(dumps, r).value + rest|
    ensures ReadResponse(loads, id, (ReplyFrame(dumps, r).value + rest)[..n], ending) ==
            if n < |ReplyFrame(dumps, r).value| then EndingResult(ending) else Meaning(id, r)
  {
    var frame := ReplyFrame(dumps, r).value;
    var got := (frame + rest)[..n];
    if n < |frame| {
      assert got == frame[..n];
      CutFrame(loads, id, MessageTypeOf(r), dumps(r), n, ending);
    } else {
      assert got == frame + got[|frame|..];
      DecodeEncoded(CAP, MessageTypeOf(r), dumps(r), got[|frame|..]);
      ReaderAgreesWithCodec(CAP, loads, id, got, ending);
    }
  }

  /** One TLS session: what was written, what will arrive, how far it was read, and how reads past it fail. */
  class PqcSession {
    var outbound: seq<byte>
    const inbound: seq<byte>
    var position: nat
    const ending: Ending
    const writeFailure: Option<Ending>

    ghost predicate Valid()
      reads this
    {
      position <= |inbound|
    }

    constructor (inbound: seq<byte>, ending: Ending, writeFailure: Option<Ending>)
      ensures Valid() && position == 0 && outbound == []
      ensures this.inbound == inbound && this.ending == ending && this.writeFailure == writeFailure
    {
      this.inbound, this.ending, this.writeFailure := inbound, ending, writeFailure;
      outbound, position := [], 0;
    }

    /** `wait_for(readexactly(n))`: None when it raises. */
    method ReadExactly(n: nat) returns (data: Option<seq<byte>>)
      requires Valid()
      modifies this`position
      ensures Valid()
      ensures data.Some? <==> old(position) + n <= |inbound|
      ensures data.Some? ==> position == old(position) + n && data.value == inbound[old(position)..position]
    {
      if position + n > |inbound| {
        position := |inbound|;
        return None;
      }
      data := Some(inbound[position..position + n]);
      position := position + n;
    }

    /** The frame is written once, and the result is what the arriving bytes say. */
    method SendEnvelope(t: Transaction, loads: Loads) returns (r: SendResult)
      requires Valid() && position == 0
      modifies this
      ensures outbound == old(outbound) + (if FrameOf(t).Some? then FrameOf(t).value else [])
      ensures r == if FrameOf(t).None? then SendResult(false, "TRANSPORT_ERROR")
                   else if writeFailure.Some? then EndingResult(writeFailure.value)
                   else ReadResponse(loads, t.id, inbound, ending)
    {
      var payload := ToBytes(EnvelopeOf(t));
      if payload.Err? || |payload.value| >= U32_LIMIT {
        return SendResult(false, "TRANSPORT_ERROR");
      }
      outbound := outbound + ([TypeByte(SignedBundle)] + PackU32(|payload.value|) + payload.value);
      if writeFailure.Some? {
        return EndingResult(writeFailure.value);
      }
      var msgType := ReadExactly(1);
      if msgType.None? {
        return EndingResult(ending);
      }
      var lenBytes := ReadExactly(4);
      if lenBytes.None? {
        return EndingResult(ending);
      }
      var body := ReadExactly(UnpackU32(lenBytes.value));
      if body.None? {
        return EndingResult(ending);
      }
      if msgType.value[0] == TypeByte(Ack) {
        var doc := loads(body.value);
        if doc.None? {
          return SendResult(false, "TRANSPORT_ERROR");
        }
        if doc.value.transactionId == Some(t.id) {
          return SendResult(true, "ACK");
        }
        return SendResult(false, "ACK_ID_MISMATCH");
      } else if msgType.value[0] == TypeByte(Nack) {
        var doc := loads(body.value);
        if doc.None? {
          return SendResult(false, "TRANSPORT_ERROR");
        }
        return SendResult(false, if doc.value.reason.Some? then doc.value.reason.value else "UNKNOWN_NACK");
      }
      return SendResult(false, "UNKNOWN_RESPONSE_TYPE");
    }
  }
}

/** The dead-letter store: a bounded window over an append-only log. */
module DeadLetters {
  import opened Exchange

  datatype Entry = Entry(transactionId: string, reason: string, state: TransactionState)

  /** The last `n` elements, or all of them. */
  function Suffix<T>(s: seq<T>, n: nat): seq<T> {
    if |s| <= n then s else s[|s| - n..]
  }

  /** The window: as many elements as there are, up to `n`, and these are the last ones in order. */
  lemma SuffixIsLast<T>(s: seq<T>, n: nat, i: nat)
    ensures |Suffix(s, n)| == if |s| <= n then |s| else n
    ensures i < |Suffix(s, n)| ==> Suffix(s, n)[i] == s[|s| - |Suffix(s, n)| + i]
  {
  }

  class DeadLetterStore {
    const maxlen: nat
    var store: seq<Entry>
    var log: seq<Entry>
    ghost var added: seq<Entry>

    ghost predicate Valid()
      reads this
    {
      store == Suffix(added, maxlen)
    }

    constructor (maxlen: nat)
      ensures Valid() && added == [] && log == [] && this.maxlen == maxlen
    {
      this.maxlen := maxlen;
      store, log, added := [], [], [];
    }

    /** The window always takes the entry; the log takes it unless the file append fails. */
    method Add(entry: Entry, appendFails: bool)
      requires Valid()
      modifies this
      ensures Valid() && added == old(added) + [entry]
      ensures log == if appendFails then old(log) else old(log) + [entry]
    {
      added := added + [entry];
      store := store + [entry];
      if |store| > maxlen {
        store := store[1..];
      }
      if !appendFails {
        log := log + [entry];
      }
    }

    /** The snapshot is the last `maxlen` entries added; if no append failed, the last `maxlen` of the log. */
    method Snapshot() returns (entries: seq<Entry>)
      requires Valid()
      ensures entries == Suffix(added, maxlen)
      ensures log == added ==> entries == Suffix(log, maxlen)
    {
      entries := store;
    }
  }
}

/** The retry loop of the transmission worker. */
module Transmission {
  import opened Basics
  import opened Exchange
  import opened DeadLetters

  datatype Attempt = SessionFailed | Answered(result: SendResult)

  /** `Misconfigured`: a recipient entry without host or with a port that is not a number. */
  datatype Routing = NoRoute | Misconfigured | Route

  datatype Config = Config(maxAttempts: int, baseBackoffMs: int, backoffFactor: int)

  const RETRY_REASONS := {"TIMEOUT", "TRANSPORT_ERROR", "CONNECTION_REFUSED"}

  predicate Retryable(a: Attempt) {
    a.SessionFailed? || (!a.result.success && a.result.reason in RETRY_REASONS)
  }

  datatype Next = Again | Done(state: TransactionState, deadLetter: Option<string>)

  /** What the worker does after attempt number `count`. */
  function AfterAttempt(maxAttempts: int, count: nat, a: Attempt): Next {
    if Retryable(a) then
      if count < maxAttempts then Again else Done(Failed, Some("MAX_RETRIES_EXCEEDED"))
    else if a.result.success then Done(Acked, None)
    else Done(Failed, Some("NACK_" + a.result.reason))
  }

  /** The outcomes after which an attempt is repeated, by name, and what each attempt leads to. */
  lemma AttemptOutcomes(maxAttempts: int, count: nat, reason: string)
    ensures AfterAttempt(maxAttempts, count, Answered(SendResult(true, reason))) == Done(Acked, None)
    ensures reason in {"TIMEOUT", "TRANSPORT_ERROR", "CONNECTION_REFUSED"} ==>
              AfterAttempt(maxAttempts, count, Answered(SendResult(false, reason))) ==
              if count < maxAttempts then Again else Done(Failed, Some("MAX_RETRIES_EXCEEDED"))
    ensures reason !in {"TIMEOUT", "TRANSPORT_ERROR", "CONNECTION_REFUSED"} ==>
              AfterAttempt(maxAttempts, count, Answered(SendResult(false, reason))) ==
              Done(Failed, Some("NACK_" + reason))
    ensures AfterAttempt(maxAttempts, count, SessionFailed) ==
            if count < maxAttempts then Again else Done(Failed, Some("MAX_RETRIES_EXCEEDED"))
  {
  }

  function Pow(b: int, e: nat): int {
    if e == 0 then 1 else b * Pow(b, e - 1)
  }

  /** The backoff after attempt number `count`, in milliseconds. */
  function Delay(cfg: Config, count: nat): int
    requires count >= 1
  {
    cfg.baseBackoffMs * Pow(cfg.backoffFactor, count - 1)
  }

  /** The first backoff is the base, and each is the factor times the one before. */
  lemma Backoffs(cfg: Config, count: nat)
    requires count >= 1
    ensures Delay(cfg, 1) == cfg.baseBackoffMs
    ensures Delay(cfg, count + 1) == cfg.backoffFactor * Delay(cfg, count)
  {
    var p := Pow(cfg.backoffFactor, count - 1);
    assert Pow(cfg.backoffFactor, count) == cfg.backoffFactor * p;
    assert cfg.baseBackoffMs * (cfg.backoffFactor * p) == cfg.backoffFactor * (cfg.baseBackoffMs * p);
  }

  /** The delays after attempts `from + 1` to `from + n`. */
  function Delays(cfg: Config, from: nat, n: nat): seq<int> {
    seq(n, i requires 0 <= i < n => Delay(cfg, from + 1 + i))
  }

  /** 200 ms and factor 2: the deployed backoffs. */
  lemma DeployedBackoffs(maxAttempts: int)
    ensures Delays(Config(maxAttempts, 200, 2), 0, 2) == [200, 400]
  {
    Backoffs(Config(maxAttempts, 200, 2), 1);
  }

  function Sum(s: seq<int>): int {
    if s == [] then 0 else Sum(s[..|s| - 1]) + s[|s| - 1]
  }

  lemma SeriesStep(sum: int, b: int, f: int, p: int, q: int)
    requires sum * (f - 1) == b * (p - q)
    ensures (sum + b * p) * (f - 1) == b * (f * p - q)
  {
    assert (sum + b * p) * (f - 1) == sum * (f - 1) + b * p * (f - 1);
    assert b * p * (f - 1) == b * (f * p) - b * p;
    assert b * (p - q) == b * p - b * q;
    assert b * (f * p - q) == b * (f * p) - b * q;
  }

  lemma OneMoreDelay(cfg: Config, from: nat, n: nat)
    ensures Delays(cfg, from, n + 1) == Delays(cfg, from, n) + [Delay(cfg, from + n + 1)]
  {
  }

  /** The backoffs form a geometric series. */
  lemma {:induction false} TotalBackoff(cfg: Config, from: nat, n: nat)
    ensures Sum(Delays(cfg, from, n)) * (cfg.backoffFactor - 1) ==
            cfg.baseBackoffMs * (Pow(cfg.backoffFactor, from + n) - Pow(cfg.backoffFactor, from))
    ensures from == 0 ==>
              Sum(Delays(cfg, from, n)) * (cfg.backoffFactor - 1) == cfg.baseBackoffMs * (Pow(cfg.backoffFactor, n) - 1)
  {
    var b, f := cfg.baseBackoffMs, cfg.backoffFactor;
    if n == 0 {
      assert Delays(cfg, from, 0) == [];
    } else {
      TotalBackoff(cfg, from, n - 1);
      var s := Delays(cfg, from, n);
      assert s[..n - 1] == Delays(cfg, from, n - 1);
      assert s[n - 1] == Delay(cfg, from + 1 + (n - 1)) == Delay(cfg, from + n);
      SeriesStep(Sum(Delays(cfg, from, n - 1)), b, f, Pow(f, from + n - 1), Pow(f, from));
    }
  }

  /**
   * `_process_transaction`. `attempts(k)` is how attempt number `k` turns out. The loop makes attempts as long as
   * they are retryable and the limit is not reached; the last one decides the final state, the dead-letter entry
   * and the telemetry record; and it sleeps once between any two attempts.
   */
  method ProcessTransaction(tx: GatewayATransaction, routing: Routing, cfg: Config, attempts: nat -> Attempt,
                            store: DeadLetterStore, appendFails: bool)
    returns (raised: bool, sleeps: seq<int>)
    requires store.Valid()
    modifies tx`state, tx`retryCount, tx`loggedRetryCount, store
    ensures store.Valid()
    ensures raised <==> routing.Misconfigured?
    ensures routing.Misconfigured? || (routing.Route? && old(tx.retryCount) >= cfg.maxAttempts) ==>
              && tx.state == old(tx.state) && tx.retryCount == old(tx.retryCount)
              && store.added == old(store.added) && tx.loggedRetryCount == old(tx.loggedRetryCount) && sleeps == []
    ensures routing.NoRoute? ==>
              && tx.state == Failed && tx.retryCount == old(tx.retryCount) && sleeps == []
              && store.added == old(store.added) + [Entry(tx.id, "UNKNOWN_RECIPIENT_ROUTING", Failed)]
    ensures routing.Route? && old(tx.retryCount) < cfg.maxAttempts ==>
              && old(tx.retryCount) < tx.retryCount <= cfg.maxAttempts
              && (forall k: nat :: old(tx.retryCount) < k < tx.retryCount ==> Retryable(attempts(k)))
              && sleeps == Delays(cfg, old(tx.retryCount), tx.retryCount - old(tx.retryCount) - 1)
              && var last := AfterAttempt(cfg.maxAttempts, tx.retryCount, attempts(tx.retryCount));
              && last.Done? && tx.state == last.state
              && store.added == old(store.added) +
                   (if last.deadLetter.Some? then [Entry(tx.id, last.deadLetter.value, Failed)] else [])
              && (tx.state.Acked? ==> tx.loggedRetryCount == Some(tx.retryCount))
              && (!tx.state.Acked? ==> tx.loggedRetryCount == old(tx.loggedRetryCount))
  {
    raised, sleeps := false, [];
    if routing.NoRoute? {
      tx.state := Failed;
      store.Add(Entry(tx.id, "UNKNOWN_RECIPIENT_ROUTING", tx.state), appendFails);
      return;
    }
    if routing.Misconfigured? {
      return true, [];
    }
    ghost var first := tx.retryCount;
    while tx.retryCount < cfg.maxAttempts
      invariant first <= tx.retryCount <= cfg.maxAttempts || (first == tx.retryCount && first >= cfg.maxAttempts)
      invariant store.Valid() && store.added == old(store.added)
      invariant tx.retryCount == first ==> tx.state == old(tx.state)
      invariant tx.retryCount > first ==> tx.retryCount < cfg.maxAttempts
      invariant tx.loggedRetryCount == old(tx.loggedRetryCount)
      invariant forall k: nat :: first < k <= tx.retryCount ==> Retryable(attempts(k))
      invariant sleeps == Delays(cfg, first, tx.retryCount - first)
      decreases cfg.maxAttempts - tx.retryCount
    {
      tx.retryCount := tx.retryCount + 1;
      tx.state := Sending;
      var attempt := attempts(tx.retryCount);
      if attempt.SessionFailed? {
        if tx.retryCount < cfg.maxAttempts {
          OneMoreDelay(cfg, first, |sleeps|);
          sleeps := sleeps + [Delay(cfg, tx.retryCount)];
          continue;
        } else {
          tx.state := Failed;
          store.Add(Entry(tx.id, "MAX_RETRIES_EXCEEDED", tx.state), appendFails);
          return;
        }
      }
      if attempt.result.success {
        tx.state := Acked;
        tx.loggedRetryCount := Some(tx.retryCount);
        return;
      } else if attempt.result.reason in RETRY_REASONS {
        if tx.retryCount < cfg.maxAttempts {
          OneMoreDelay(cfg, first, |sleeps|);
          sleeps := sleeps + [Delay(cfg, tx.retryCount)];
          continue;
        } else {
          tx.state := Failed;
          store.Add(Entry(tx.id, "MAX_RETRIES_EXCEEDED", tx.state), appendFails);
          return;
        }
      } else {
        tx.state := Failed;
        store.Add(Entry(tx.id, "NACK_" + attempt.result.reason, tx.state), appendFails);
        return;
      }
    }
  }
}
