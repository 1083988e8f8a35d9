/** The ACK and NACK frames gateway B answers with. */
module Responses {
  import opened Basics
  import FrameCodec
  import Utf8

  const CAP := FrameCodec.DEFAULT_MAX_PAYLOAD_SIZE

  datatype NackReason =
    SigInvalid | PolicyDenied | Malformed | UnknownSender | IngestFailed | IdentityMismatch | RevokedCert

  function ReasonText(r: NackReason): string {
    match r
    case SigInvalid => "SIG_INVALID"
    case PolicyDenied => "POLICY_DENIED"
    case Malformed => "MALFORMED"
    case UnknownSender => "UNKNOWN_SENDER"
    case IngestFailed => "INGEST_FAILED"
    case IdentityMismatch => "IDENTITY_MISMATCH"
    case RevokedCert => "REVOKED_CERT"
  }

  datatype Response = AckOf(id: string) | NackOf(id: string, reason: NackReason)

  const NACK_ZERO := NackOf("0", Malformed)

  /** The deployed cap: 10 MiB of payload. */
  lemma DeployedCap(t: FrameCodec.MessageType, payload: seq<byte>)
    ensures FrameCodec.EncodeFrame(CAP, t, payload).Ok? <==> |payload| <= 10_485_760
  {
  }

  function MessageTypeOf(r: Response): FrameCodec.MessageType {
    if r.AckOf? then FrameCodec.Ack else FrameCodec.Nack
  }

  // ----- json.dumps, which escapes everything outside printable ASCII -----

  function HexDigit(d: nat): char
    requires d < 16
  {
    "0123456789abcdef"[d]
  }

  /** The last `k` hexadecimal digits of `n`. */
  function HexDigits(n: nat, k: nat): string {
    if k == 0 then "" else HexDigits(n / 16, k - 1) + [HexDigit(n % 16)]
  }

  function UnicodeEscape(unit: nat): string
    requires unit < 0x1_0000
  {
    ['\\', 'u'] + HexDigits(unit, 4)
  }

  function EscapeChar(c: char): string {
    var n := c as int;
    if c == '"' then "\\\""
    else if c == '\\' then "\\\\"
    else if c == '\n' then "\\n"
    else if c == '\r' then "\\r"
    else if c == '\t' then "\\t"
    else if n == 8 then "\\b"
    else if n == 12 then "\\f"
    else if 0x20 <= n <= 0x7E then [c]
    else if n < 0x1_0000 then UnicodeEscape(n)
    else UnicodeEscape(0xD800 + (n - 0x1_0000) / 0x400) + UnicodeEscape(0xDC00 + (n - 0x1_0000) % 0x400)
  }

  /** A character stands for itself exactly if it is printable ASCII and neither quote nor backslash. */
  lemma EscapedCharacters(c: char)
    ensures EscapeChar(c) == [c] <==> ' ' <= c <= '~' && c != '"' && c != '\\'
    ensures EscapeChar('"') == "\\\"" && EscapeChar('\\') == "\\\\"
    ensures EscapeChar('\n') == "\\n" && EscapeChar('\r') == "\\r" && EscapeChar('\t') == "\\t"
    ensures EscapeChar('\U{8}') == "\\b" && EscapeChar('\U{C}') == "\\f"
  {
    if c as int >= 0x1_0000 {
      assert |HexDigits(0xD800 + (c as int - 0x1_0000) / 0x400, 4)| >= 1;
    }
  }

  lemma HexOfDelete()
    ensures HexDigits(0x7F, 4) == ['0', '0', '7', 'f']
  {
    assert HexDigits(0x7, 3) == ['0', '0', '7'] by {
      assert HexDigits(0, 2) == ['0', '0'];
    }
  }

  /** Other characters are written in lower-case hexadecimal. */
  lemma EscapedExample()
    ensures EscapeChar('\U{7F}') == ['\\', 'u', '0', '0', '7', 'f']
  {
    HexOfDelete();
  }

  function Escape(s: string): string {
    if s == "" then "" else EscapeChar(s[0]) + Escape(s[1..])
  }

  const OPENING := "{\"transaction_id\": \""

  const MIDDLE := "\", \"reason\": \""

  const CLOSING := "\"}"

  /** The reasons as they are written. */
  lemma ReasonTexts()
    ensures ReasonText(SigInvalid) == "SIG_INVALID" && ReasonText(PolicyDenied) == "POLICY_DENIED"
    ensures ReasonText(Malformed) == "MALFORMED" && ReasonText(UnknownSender) == "UNKNOWN_SENDER"
    ensures ReasonText(IngestFailed) == "INGEST_FAILED" && ReasonText(IdentityMismatch) == "IDENTITY_MISMATCH"
    ensures ReasonText(RevokedCert) == "REVOKED_CERT"
  {
  }

  function BodyText(r: Response): string {
    match r
    case AckOf(id) => (OPENING + Escape(id)) + CLOSING
    case NackOf(id, reason) => ((OPENING + Escape(id)) + (MIDDLE + ReasonText(reason))) + CLOSING
  }

  /** The bodies around an id: the ACK, and a NACK with its reason. */
  lemma BodyTexts(id: string)
    ensures BodyText(AckOf(id)) == "{\"transaction_id\": \"" + Escape(id) + "\"}"
    ensures BodyText(NackOf(id, PolicyDenied)) ==
            "{\"transaction_id\": \"" + Escape(id) + ("\", \"reason\": \"" + "POLICY_DENIED") + "\"}"
  {
  }

  function Body(r: Response): seq<byte> {
    Utf8.Encode(BodyText(r))
  }

  /** What `encode_frame` makes of the response. */
  function Encoded(r: Response): Result<seq<byte>, FrameCodec.FrameError> {
    FrameCodec.EncodeFrame(CAP, MessageTypeOf(r), Body(r))
  }

  // ----- The size of a body, by counting -----

  function EscapedCharSize(c: char): nat {
    var n := c as int;
    if n in {0x22, 0x5C, 8, 9, 10, 12, 13} then 2
    else if 0x20 <= n <= 0x7E then 1
    else if n < 0x1_0000 then 6
    else 12
  }

  function EscapedSize(s: string): nat {
    if s == "" then 0 else EscapedCharSize(s[0]) + EscapedSize(s[1..])
  }

  function ReasonSize(r: NackReason): nat {
    match r
    case SigInvalid => 11
    case PolicyDenied => 13
    case Malformed => 9
    case UnknownSender => 14
    case IngestFailed => 13
    case IdentityMismatch => 17
    case RevokedCert => 12
  }

  /** The response can be framed: its body has at most `CAP` bytes. */
  predicate Fits(r: Response) {
    match r
    case AckOf(id) => 22 + EscapedSize(id) <= CAP
    case NackOf(id, reason) => 36 + EscapedSize(id) + ReasonSize(reason) <= CAP
  }

  predicate IsAscii(s: string) {
    forall i :: 0 <= i < |s| ==> s[i] as int < 0x80
  }

  lemma {:induction false} AsciiSize(s: string)
    requires IsAscii(s)
    ensures |Utf8.Encode(s)| == |s|
  {
    if s != "" {
      AsciiSize(s[1..]);
    }
  }

  lemma {:induction false} HexDigitsAreAscii(n: nat, k: nat)
    ensures |HexDigits(n, k)| == k && IsAscii(HexDigits(n, k))
  {
    if k > 0 {
      HexDigitsAreAscii(n / 16, k - 1);
    }
  }

  lemma UnicodeEscapeIsAscii(unit: nat)
    requires unit < 0x1_0000
    ensures |UnicodeEscape(unit)| == 6 && IsAscii(UnicodeEscape(unit))
  {
    HexDigitsAreAscii(unit, 4);
  }

  lemma AsciiConcat(a: string, b: string)
    requires IsAscii(a) && IsAscii(b)
    ensures IsAscii(a + b)
  {
  }

  lemma AstralSize(n: nat)
    requires 0x1_0000 <= n < 0x11_0000
    ensures var pair := UnicodeEscape(0xD800 + (n - 0x1_0000) / 0x400) + UnicodeEscape(0xDC00 + (n - 0x1_0000) % 0x400);
            |pair| == 12 && IsAscii(pair)
  {
    var high, low := 0xD800 + (n - 0x1_0000) / 0x400, 0xDC00 + (n - 0x1_0000) % 0x400;
    UnicodeEscapeIsAscii(high);
    UnicodeEscapeIsAscii(low);
    AsciiConcat(UnicodeEscape(high), UnicodeEscape(low));
  }

  lemma EscapeCharSize(c: char)
    ensures |EscapeChar(c)| == EscapedCharSize(c) && IsAscii(EscapeChar(c))
  {
    if c as int >= 0x1_0000 {
      AstralSize(c as int);
    } else {
      UnicodeEscapeIsAscii(c as int);
    }
  }

  lemma {:induction false} EscapeSize(s: string)
    ensures |Escape(s)| == EscapedSize(s) && IsAscii(Escape(s))
  {
    if s != "" {
      EscapeSize(s[1..]);
      EscapeCharSize(s[0]);
      AsciiConcat(EscapeChar(s[0]), Escape(s[1..]));
    }
  }

  predicate IsAsciiOf(s: string, size: nat) {
    |s| == size && IsAscii(s)
  }

  lemma SomeReasonsAreAscii()
    ensures IsAsciiOf("SIG_INVALID", 11) && IsAsciiOf("POLICY_DENIED", 13) && IsAsciiOf("MALFORMED", 9)
  {
  }

  lemma OtherReasonsAreAscii()
    ensures IsAsciiOf("UNKNOWN_SENDER", 14) && IsAsciiOf("INGEST_FAILED", 13)
    ensures IsAsciiOf("IDENTITY_MISMATCH", 17) && IsAsciiOf("REVOKED_CERT", 12)
  {
  }

  lemma ReasonIsAscii(reason: NackReason)
    ensures |ReasonText(reason)| == ReasonSize(reason) && IsAscii(ReasonText(reason))
  {
    SomeReasonsAreAscii();
    OtherReasonsAreAscii();
    assert IsAsciiOf(ReasonText(reason), ReasonSize(reason));
  }

  lemma PunctuationIsAscii()
    ensures |OPENING| == 20 && |MIDDLE| == 14 && |CLOSING| == 2
    ensures IsAscii(OPENING) && IsAscii(MIDDLE) && IsAscii(CLOSING)
  {
  }

  lemma BodyIsAscii(r: Response)
    requires IsAscii(Escape(r.id)) && |Escape(r.id)| == EscapedSize(r.id)
    requires r.NackOf? ==> |ReasonText(r.reason)| == ReasonSize(r.reason) && IsAscii(ReasonText(r.reason))
    ensures IsAscii(BodyText(r))
    ensures |BodyText(r)| == match r
                             case AckOf(id) => 22 + EscapedSize(id)
                             case NackOf(id, reason) => 36 + EscapedSize(id) + ReasonSize(reason)
  {
    PunctuationIsAscii();
    AsciiConcat(OPENING, Escape(r.id));
    match r
    case AckOf(id) => AsciiConcat(OPENING + Escape(id), CLOSING);
    case NackOf(id, reason) =>
      AsciiConcat(MIDDLE, ReasonText(reason));
      AsciiConcat(OPENING + Escape(id), MIDDLE + ReasonText(reason));
      AsciiConcat((OPENING + Escape(id)) + (MIDDLE + ReasonText(reason)), CLOSING);
  }

  /** `encode_frame` accepts a response exactly when the count says so. */
  lemma FitsIsEncodable(r: Response)
    ensures Fits(r) <==> Encoded(r).Ok?
  {
    EscapeSize(r.id);
    if r.NackOf? {
      ReasonIsAscii(r.reason);
    }
    BodyIsAscii(r);
    AsciiSize(BodyText(r));
  }

  lemma {:induction false} EscapedSizeBound(s: string)
    ensures EscapedSize(s) <= 12 * |s|
  {
    if s != "" {
      EscapedSizeBound(s[1..]);
    }
  }

  /** Any id of at most 800,000 characters can be answered; in particular the placeholder "0" and a UUID. */
  lemma ShortIdsFit(r: Response)
    requires |r.id| <= 800_000
    ensures Fits(r)
  {
    EscapedSizeBound(r.id);
  }
}

/** The checks gateway B makes on one SIGNED_BUNDLE payload, up to the call of the ingestor. */
module Gates {
  import opened Basics
  import opened Envelope
  import opened Responses
  import InboundPep
  import TrustStore

  /** A parsed STIX document: its `type`, whether it has `objects`, and what it contains. */
  datatype StixDocument = StixDocument(kind: Option<string>, hasObjects: bool, content: seq<byte>)

  /**
   * What the handler is built from. Signature verification, zlib and JSON are foreign code and enter as
   * functions; None is a raised exception.
   */
  datatype Gateway = Gateway(
    trust: TrustStore.View,
    rules: seq<InboundPep.Rule>,
    verify: (seq<byte>, seq<byte>, string) -> bool,
    inflate: seq<byte> -> Option<seq<byte>>,
    loadStix: seq<byte> -> Option<StixDocument>)

  datatype Event =
    | Verified(data: seq<byte>, signature: seq<byte>, valid: bool)
    | PolicyChecked(sender: string, recipient: string, tlp: string, allowed: bool)
    | Inflated(data: seq<byte>, succeeded: bool)
    | Ingested(document: StixDocument, accepted: bool)
    | Wrote(response: Response)
    | Logged(id: string)

  /**
   * The handlers that surround a statement, innermost first: an inner `try` of process_transaction, its outer
   * `try`, the frame-error handler of the read loop, or only the final handler that closes the connection.
   */
  datatype Guard = InnerGuard | TransactionGuard | FrameGuard | Unguarded

  datatype Verdict = Refuse(reason: NackReason, guard: Guard) | Admit(document: StixDocument)

  datatype Exam = Exam(trace: seq<Event>, id: string, verdict: Verdict)

  predicate Complete(e: TransactionEnvelope) {
    e.transactionId != "" && e.senderId != "" && e.signature != [] && e.stixBundleCompressed != []
  }

  function Unpack(g: Gateway, e: TransactionEnvelope, checked: seq<Event>): Exam {
    var plain := g.inflate(e.stixBundleCompressed);
    var inflated := checked + [Inflated(e.stixBundleCompressed, plain.Some?)];
    if plain.None? then Exam(inflated, e.transactionId, Refuse(Malformed, TransactionGuard))
    else
      var document := g.loadStix(plain.value);
      if document.None? then Exam(inflated, e.transactionId, Refuse(Malformed, TransactionGuard))
      else if document.value.kind != Some("bundle") || !document.value.hasObjects then
        Exam(inflated, e.transactionId, Refuse(Malformed, InnerGuard))
      else Exam(inflated, e.transactionId, Admit(document.value))
  }

  function Authenticate(g: Gateway, e: TransactionEnvelope, keyPath: string): Exam {
    var valid := g.verify(e.stixBundleCompressed, e.signature, keyPath);
    var verified := [Verified(e.stixBundleCompressed, e.signature, valid)];
    if !valid then Exam(verified, e.transactionId, Refuse(SigInvalid, TransactionGuard))
    else
      var allowed := InboundPep.Evaluate(g.rules, e.senderId, e.recipientId, TlpText(e.tlpMarking)).ExplicitAllow?;
      var checked := verified + [PolicyChecked(e.senderId, e.recipientId, TlpText(e.tlpMarking), allowed)];
      if !allowed then Exam(checked, e.transactionId, Refuse(PolicyDenied, TransactionGuard))
      else Unpack(g, e, checked)
  }

  /** A key missing from the agency entry raises straight into the outer handler, which answers MALFORMED. */
  function Identify(g: Gateway, peer: string, e: TransactionEnvelope): Exam {
    if e.senderId !in g.trust.agencies then Exam([], e.transactionId, Refuse(UnknownSender, TransactionGuard))
    else
      var agency := g.trust.agencies[e.senderId];
      if agency.tlsCertificateFingerprint.None? then Exam([], e.transactionId, Refuse(Malformed, FrameGuard))
      else if agency.tlsCertificateFingerprint.value != peer then
        Exam([], e.transactionId, Refuse(IdentityMismatch, TransactionGuard))
      else if peer in g.trust.revoked then Exam([], e.transactionId, Refuse(RevokedCert, TransactionGuard))
      else if agency.payloadSigningPublicKeyFingerprint.None? then
        Exam([], e.transactionId, Refuse(Malformed, FrameGuard))
      else if agency.payloadSigningPublicKeyFingerprint.value in g.trust.revoked then
        Exam([], e.transactionId, Refuse(RevokedCert, TransactionGuard))
      else if agency.payloadSigningPublicKeyPath.None? then
        Exam([], e.transactionId, Refuse(Malformed, FrameGuard))
      else Authenticate(g, e, agency.payloadSigningPublicKeyPath.value)
  }

  function Examine(g: Gateway, peer: string, payload: seq<byte>): Exam {
    match FromBytes(payload)
    case Err(_) => Exam([], "0", Refuse(Malformed, TransactionGuard))
    case Ok(e) =>
      if !Complete(e) then Exam([], e.transactionId, Refuse(Malformed, InnerGuard))
      else Identify(g, peer, e)
  }

  // ----- The verdict in terms of the envelope's fields -----

  /** An envelope without an id, a sender, a signature or a bundle is refused before anything is checked. */
  lemma EmptyFieldIsMalformed(g: Gateway, peer: string, payload: seq<byte>, e: TransactionEnvelope)
    requires FromBytes(payload) == Ok(e)
    ensures e.transactionId == "" || e.senderId == "" || e.signature == [] || e.stixBundleCompressed == [] ==>
              Examine(g, peer, payload) == Exam([], e.transactionId, Refuse(Malformed, InnerGuard))
    ensures Examine(g, peer, payload).verdict.Admit? ==>
              e.transactionId != "" && e.senderId != "" && e.signature != [] && e.stixBundleCompressed != []
  {
  }

  /** The peer is the sender that the envelope names, and neither of its certificates is revoked. */
  ghost predicate Trusted(g: Gateway, peer: string, e: TransactionEnvelope) {
    && e.senderId in g.trust.agencies
    && var agency := g.trust.agencies[e.senderId];
    && agency.tlsCertificateFingerprint == Some(peer) && peer !in g.trust.revoked
    && agency.payloadSigningPublicKeyFingerprint.Some?
    && agency.payloadSigningPublicKeyFingerprint.value !in g.trust.revoked
    && agency.payloadSigningPublicKeyPath.Some?
  }

  ghost predicate Signed(g: Gateway, e: TransactionEnvelope)
    requires e.senderId in g.trust.agencies && g.trust.agencies[e.senderId].payloadSigningPublicKeyPath.Some?
  {
    g.verify(e.stixBundleCompressed, e.signature, g.trust.agencies[e.senderId].payloadSigningPublicKeyPath.value)
  }

  ghost predicate Allowed(g: Gateway, e: TransactionEnvelope) {
    InboundPep.Evaluate(g.rules, e.senderId, e.recipientId, TlpText(e.tlpMarking)).ExplicitAllow?
  }

  /** The refusals that come from who sent the envelope, each exactly when its cause is there. */
  lemma IdentityRefusals(g: Gateway, peer: string, payload: seq<byte>, e: TransactionEnvelope)
    requires FromBytes(payload) == Ok(e)
    requires e.transactionId != "" && e.senderId != "" && e.signature != [] && e.stixBundleCompressed != []
    ensures var exam := Examine(g, peer, payload);
            && (exam.verdict == Refuse(UnknownSender, TransactionGuard) <==> e.senderId !in g.trust.agencies)
            && (!Trusted(g, peer, e) ==> exam.verdict.Refuse? && exam.trace == [] && exam.id == e.transactionId)
            && (e.senderId in g.trust.agencies ==>
                  var agency := g.trust.agencies[e.senderId];
                  && (exam.verdict == Refuse(IdentityMismatch, TransactionGuard) <==>
                        agency.tlsCertificateFingerprint.Some? && agency.tlsCertificateFingerprint != Some(peer))
                  && (exam.verdict == Refuse(RevokedCert, TransactionGuard) <==>
                        agency.tlsCertificateFingerprint == Some(peer) &&
                        (peer in g.trust.revoked ||
                         (agency.payloadSigningPublicKeyFingerprint.Some? &&
                          agency.payloadSigningPublicKeyFingerprint.value in g.trust.revoked)))
                  && (exam.verdict == Refuse(Malformed, FrameGuard) <==>
                        || agency.tlsCertificateFingerprint.None?
                        || (agency.tlsCertificateFingerprint == Some(peer) && peer !in g.trust.revoked &&
                            (agency.payloadSigningPublicKeyFingerprint.None? ||
                             (agency.payloadSigningPublicKeyFingerprint.value !in g.trust.revoked &&
                              agency.payloadSigningPublicKeyPath.None?)))))
  {
  }

  /** The examination of a signed and allowed envelope: whether the bundle inflates to a STIX bundle. */
  ghost function Opened(g: Gateway, e: TransactionEnvelope): Exam {
    var before := [Verified(e.stixBundleCompressed, e.signature, true),
                   PolicyChecked(e.senderId, e.recipientId, TlpText(e.tlpMarking), true)];
    match g.inflate(e.stixBundleCompressed)
    case None =>
      Exam(before + [Inflated(e.stixBundleCompressed, false)], e.transactionId, Refuse(Malformed, TransactionGuard))
    case Some(plain) =>
      var trace := before + [Inflated(e.stixBundleCompressed, true)];
      match g.loadStix(plain)
      case None => Exam(trace, e.transactionId, Refuse(Malformed, TransactionGuard))
      case Some(StixDocument(kind, hasObjects, content)) =>
        if kind == Some("bundle") && hasObjects
        then Exam(trace, e.transactionId, Admit(StixDocument(kind, hasObjects, content)))
        else Exam(trace, e.transactionId, Refuse(Malformed, InnerGuard))
  }

  /** What becomes of an envelope from a trusted peer: signature, policy, bundle, in this order. */
  lemma TrustedVerdict(g: Gateway, peer: string, payload: seq<byte>, e: TransactionEnvelope)
    requires FromBytes(payload) == Ok(e) && Trusted(g, peer, e)
    requires e.transactionId != "" && e.senderId != "" && e.signature != [] && e.stixBundleCompressed != []
    ensures var exam := Examine(g, peer, payload);
            && (!Signed(g, e) ==> exam.verdict == Refuse(SigInvalid, TransactionGuard) && |exam.trace| == 1)
            && (Signed(g, e) && !Allowed(g, e) ==>
                  exam.verdict == Refuse(PolicyDenied, TransactionGuard) && |exam.trace| == 2)
            && (Signed(g, e) && Allowed(g, e) ==> exam == Opened(g, e))
  {
  }

  // ----- The reference: an ordered set of independent gates -----

  datatype Gate =
    | Decodes | HasRequiredFields | SenderIsKnown | TlsPinIsPresent | PeerIsSender | PeerIsNotRevoked
    | KeyPinIsPresent | KeyIsNotRevoked | KeyPathIsPresent | SignatureVerifies | PolicyAllows
    | BundleInflates | BundleIsStix

  /** The position of a gate in the order of checks. */
  function Rank(gate: Gate): nat {
    match gate
    case Decodes => 0
    case HasRequiredFields => 1
    case SenderIsKnown => 2
    case TlsPinIsPresent => 3
    case PeerIsSender => 4
    case PeerIsNotRevoked => 5
    case KeyPinIsPresent => 6
    case KeyIsNotRevoked => 7
    case KeyPathIsPresent => 8
    case SignatureVerifies => 9
    case PolicyAllows => 10
    case BundleInflates => 11
    case BundleIsStix => 12
  }

  function GateReason(gate: Gate): NackReason {
    match gate
    case SenderIsKnown => UnknownSender
    case PeerIsSender => IdentityMismatch
    case PeerIsNotRevoked | KeyIsNotRevoked => RevokedCert
    case SignatureVerifies => SigInvalid
    case PolicyAllows => PolicyDenied
    case _ => Malformed
  }

  /** The agency the envelope names, with every key missing if there is none. */
  function NamedAgency(g: Gateway, e: TransactionEnvelope): TrustStore.Agency {
    if e.senderId in g.trust.agencies then g.trust.agencies[e.senderId]
    else TrustStore.Agency(None, None, None)
  }

  function BundleOf(g: Gateway, e: TransactionEnvelope): Option<StixDocument> {
    var plain := g.inflate(e.stixBundleCompressed);
    if plain.None? then None else g.loadStix(plain.value)
  }

  /** What each gate asks of a decoded envelope, on its own. */
  predicate EnvelopePasses(g: Gateway, peer: string, e: TransactionEnvelope, gate: Gate) {
    var agency := NamedAgency(g, e);
    match gate
    case Decodes => true
    case HasRequiredFields => Complete(e)
    case SenderIsKnown => e.senderId in g.trust.agencies
    case TlsPinIsPresent => agency.tlsCertificateFingerprint.Some?
    case PeerIsSender => agency.tlsCertificateFingerprint == Some(peer)
    case PeerIsNotRevoked => peer !in g.trust.revoked
    case KeyPinIsPresent => agency.payloadSigningPublicKeyFingerprint.Some?
    case KeyIsNotRevoked =>
      agency.payloadSigningPublicKeyFingerprint.Some? &&
      agency.payloadSigningPublicKeyFingerprint.value !in g.trust.revoked
    case KeyPathIsPresent => agency.payloadSigningPublicKeyPath.Some?
    case SignatureVerifies =>
      agency.payloadSigningPublicKeyPath.Some? &&
      g.verify(e.stixBundleCompressed, e.signature, agency.payloadSigningPublicKeyPath.value)
    case PolicyAllows =>
      InboundPep.Evaluate(g.rules, e.senderId, e.recipientId, TlpText(e.tlpMarking)).ExplicitAllow?
    case BundleInflates => g.inflate(e.stixBundleCompressed).Some?
    case BundleIsStix =>
      var document := BundleOf(g, e);
      document.Some? && document.value.kind == Some("bundle") && document.value.hasObjects
  }

  predicate Passes(g: Gateway, peer: string, payload: seq<byte>, gate: Gate) {
    FromBytes(payload).Ok? && EnvelopePasses(g, peer, FromBytes(payload).value, gate)
  }

  ghost predicate FirstFailing(g: Gateway, peer: string, payload: seq<byte>, gate: Gate) {
    && !Passes(g, peer, payload, gate)
    && forall other: Gate :: Rank(other) < Rank(gate) ==> Passes(g, peer, payload, other)
  }

  function LateFailingGate(g: Gateway, peer: string, e: TransactionEnvelope): Option<Gate> {
    if !EnvelopePasses(g, peer, e, SignatureVerifies) then Some(SignatureVerifies)
    else if !EnvelopePasses(g, peer, e, PolicyAllows) then Some(PolicyAllows)
    else if !EnvelopePasses(g, peer, e, BundleInflates) then Some(BundleInflates)
    else if !EnvelopePasses(g, peer, e, BundleIsStix) then Some(BundleIsStix)
    else None
  }

  /** The first gate an envelope fails, found by asking the gates one after the other. */
  function FailingGate(g: Gateway, peer: string, e: TransactionEnvelope): Option<Gate> {
    if !EnvelopePasses(g, peer, e, HasRequiredFields) then Some(HasRequiredFields)
    else if !EnvelopePasses(g, peer, e, SenderIsKnown) then Some(SenderIsKnown)
    else if !EnvelopePasses(g, peer, e, TlsPinIsPresent) then Some(TlsPinIsPresent)
    else if !EnvelopePasses(g, peer, e, PeerIsSender) then Some(PeerIsSender)
    else if !EnvelopePasses(g, peer, e, PeerIsNotRevoked) then Some(PeerIsNotRevoked)
    else if !EnvelopePasses(g, peer, e, KeyPinIsPresent) then Some(KeyPinIsPresent)
    else if !EnvelopePasses(g, peer, e, KeyIsNotRevoked) then Some(KeyIsNotRevoked)
    else if !EnvelopePasses(g, peer, e, KeyPathIsPresent) then Some(KeyPathIsPresent)
    else LateFailingGate(g, peer, e)
  }

  lemma FailingGateIsFirst(g: Gateway, peer: string, e: TransactionEnvelope, gate: Gate)
    ensures FailingGate(g, peer, e) == None ==> EnvelopePasses(g, peer, e, gate)
    ensures FailingGate(g, peer, e).Some? ==> !EnvelopePasses(g, peer, e, FailingGate(g, peer, e).value)
    ensures FailingGate(g, peer, e).Some? && Rank(gate) < Rank(FailingGate(g, peer, e).value) ==>
              EnvelopePasses(g, peer, e, gate)
  {
  }

  predicate Agrees(verdict: Verdict, gate: Option<Gate>) {
    match gate
    case None => verdict.Admit?
    case Some(failing) => verdict.Refuse? && verdict.reason == GateReason(failing)
  }

  lemma AuthenticateFollowsGates(g: Gateway, peer: string, e: TransactionEnvelope)
    requires NamedAgency(g, e).payloadSigningPublicKeyPath.Some?
    ensures Agrees(Authenticate(g, e, NamedAgency(g, e).payloadSigningPublicKeyPath.value).verdict,
                   LateFailingGate(g, peer, e))
  {
  }

  /** A sender whose pin is present and is the peer's, which is not revoked. */
  predicate Recognised(g: Gateway, peer: string, e: TransactionEnvelope) {
    && EnvelopePasses(g, peer, e, HasRequiredFields) && EnvelopePasses(g, peer, e, SenderIsKnown)
    && EnvelopePasses(g, peer, e, PeerIsSender) && EnvelopePasses(g, peer, e, PeerIsNotRevoked)
  }

  lemma UnrecognisedFollowsGates(g: Gateway, peer: string, e: TransactionEnvelope)
    requires Complete(e) && !Recognised(g, peer, e)
    ensures Agrees(Identify(g, peer, e).verdict, FailingGate(g, peer, e))
  {
  }

  lemma RecognisedFollowsGates(g: Gateway, peer: string, e: TransactionEnvelope)
    requires Recognised(g, peer, e)
    ensures Agrees(Identify(g, peer, e).verdict, FailingGate(g, peer, e))
  {
    if NamedAgency(g, e).payloadSigningPublicKeyPath.Some? {
      AuthenticateFollowsGates(g, peer, e);
    }
  }

  lemma IdentifyFollowsGates(g: Gateway, peer: string, e: TransactionEnvelope)
    requires Complete(e)
    ensures Agrees(Identify(g, peer, e).verdict, FailingGate(g, peer, e))
  {
    if Recognised(g, peer, e) {
      RecognisedFollowsGates(g, peer, e);
    } else {
      UnrecognisedFollowsGates(g, peer, e);
    }
  }

  lemma EnvelopeRefusal(g: Gateway, peer: string, e: TransactionEnvelope, gate: Gate)
    requires Complete(e)
    requires !EnvelopePasses(g, peer, e, gate)
    requires forall other: Gate :: Rank(other) < Rank(gate) ==> EnvelopePasses(g, peer, e, other)
    ensures Identify(g, peer, e).verdict.Refuse?
    ensures Identify(g, peer, e).verdict.reason == GateReason(gate)
  {
    IdentifyFollowsGates(g, peer, e);
    FailingGateIsFirst(g, peer, e, gate);
    var failing := FailingGate(g, peer, e).value;
    assert Rank(failing) >= Rank(gate);
    assert Rank(failing) == Rank(gate) ==> failing == gate;
  }

  /**
   * The nested checks refine the ordered gates: a payload is admitted exactly when every gate passes, and a
   * refusal carries the reason of the first gate that fails.
   */
  lemma ExamineFollowsGates(g: Gateway, peer: string, payload: seq<byte>, gate: Gate)
    ensures Examine(g, peer, payload).verdict.Admit? <==> forall other: Gate :: Passes(g, peer, payload, other)
    ensures FirstFailing(g, peer, payload, gate) ==>
              Examine(g, peer, payload).verdict.Refuse? &&
              Examine(g, peer, payload).verdict.reason == GateReason(gate)
  {
    var decoded := FromBytes(payload);
    if decoded.Ok? && Complete(decoded.value) {
      var e := decoded.value;
      IdentifyFollowsGates(g, peer, e);
      forall other: Gate
        ensures FailingGate(g, peer, e) == None ==> Passes(g, peer, payload, other)
      {
        FailingGateIsFirst(g, peer, e, other);
      }
      if FailingGate(g, peer, e).Some? {
        FailingGateIsFirst(g, peer, e, gate);
        assert !Passes(g, peer, payload, FailingGate(g, peer, e).value);
      }
      if FirstFailing(g, peer, payload, gate) {
        forall other: Gate | Rank(other) < Rank(gate)
          ensures EnvelopePasses(g, peer, e, other)
        {
          assert Passes(g, peer, payload, other);
        }
        EnvelopeRefusal(g, peer, e, gate);
      }
    } else {
      assert !Passes(g, peer, payload, HasRequiredFields);
      assert Rank(gate) > 1 ==> !FirstFailing(g, peer, payload, gate);
    }
  }

  /** The events of a fully successful examination of an envelope. */
  function AllChecks(e: TransactionEnvelope): seq<Event> {
    [Verified(e.stixBundleCompressed, e.signature, true),
     PolicyChecked(e.senderId, e.recipientId, TlpText(e.tlpMarking), true),
     Inflated(e.stixBundleCompressed, true)]
  }

  function Failure(check: Event): Event {
    match check
    case Verified(d, s, _) => Verified(d, s, false)
    case PolicyChecked(s, r, t, _) => PolicyChecked(s, r, t, false)
    case Inflated(d, _) => Inflated(d, false)
    case other => other
  }

  /**
   * An examination does no more than these three checks, in this order, and goes on to the next one only after
   * the last one succeeded.
   */
  ghost predicate OrderedChecks(e: TransactionEnvelope, trace: seq<Event>) {
    && |trace| <= 3
    && (forall i :: 0 <= i < |trace| - 1 ==> trace[i] == AllChecks(e)[i])
    && (|trace| >= 1 ==> trace[|trace| - 1] in {AllChecks(e)[|trace| - 1], Failure(AllChecks(e)[|trace| - 1])})
  }

  lemma ChecksAreOrdered(g: Gateway, peer: string, e: TransactionEnvelope)
    ensures var exam := Identify(g, peer, e);
            && exam.id == e.transactionId
            && OrderedChecks(e, exam.trace)
            && (exam.verdict.Admit? ==> exam.trace == AllChecks(e) && BundleOf(g, e) == Some(exam.verdict.document))
  {
  }

  lemma ExamTrace(g: Gateway, peer: string, payload: seq<byte>)
    ensures var exam := Examine(g, peer, payload);
            && (FromBytes(payload).Err? ==> exam == Exam([], "0", Refuse(Malformed, TransactionGuard)))
            && (FromBytes(payload).Ok? ==>
                  var e := FromBytes(payload).value;
                  && exam.id == e.transactionId
                  && OrderedChecks(e, exam.trace)
                  && (exam.verdict.Admit? ==>
                        Complete(e) && exam.trace == AllChecks(e) && BundleOf(g, e) == Some(exam.verdict.document)))
  {
    if FromBytes(payload).Ok? {
      ChecksAreOrdered(g, peer, FromBytes(payload).value);
    }
  }
}
