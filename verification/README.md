# QS-TIE transaction protocol in Dafny

A model of how gateway A turns MISP events into signed bundles and sends them to gateway B, and of how gateway B
receives, checks and ingests them; with proofs about every run of both gateways together.

| files | what they hold |
|---|---|
| `Wire.dfy` | frames, the streaming decoder and the buffer-and-drain loop |
| `Utf8.dfy`, `Protobuf.dfy`, `Envelope.dfy`, `Vectors.dfy` | the proto3 serialization of the envelope, down to bytes, and the recorded vectors |
| `Policy.dfy` | inbound and outbound policy, tag selection, the trust store |
| `Receiver.dfy` | gateway B's responses (with the size of their JSON bodies) and its chain of gates |
| `Handler.dfy`, `HandlerProperties.dfy` | gateway B's connection handler as a machine from `await` to `await`, and its properties |
| `ReceiverCode.dfy` | the handler as imperative code with its nested exception handlers, proved equal to the machine |
| `Witnesses.dfy` | inputs on which the receiver does not do what one might expect of it |
| `Json.dfy` | a reader for the response bodies, proved to undo their writing |
| `Sender.dfy` | framing and response reader of gateway A, dead letters, the retry loop |
| `Pipeline.dfy` | gateway A's four stages and three queues as interleaved actions |
| `PipelineRuns.dfy` | the history of each transaction over a run, and that work in flight can be finished |
| `Workers.dfy` | the workers as code over transaction objects, proved to be those actions |
| `System.dfy` | both gateways, the connections between them and strangers' connections, interleaved freely |
| `Strangers.dfy` | what connections that gateway A did not open can get ingested |
| `Progress.dfy` | that work can always be finished and an attempt can be acknowledged, with a deployed instance |
| `Telemetry.dfy`, `RunTelemetry.dfy` | the two telemetry joins, the latency decomposition, and the join of a run's own files |

The central theorems are `System.AckedWasIngested` (what A believes acknowledged was ingested by B from the bytes A
signed), `System.DuplicateBound`, `System.NackReadIsFinal`, `HandlerProperties.Chunking`,
`HandlerProperties.AckDiscipline`, `Gates.ExamineFollowsGates`, `ReceiverCode.HandleConnection`,
`Strangers.IngestsAreAuthentic`, `Progress.RunsCanAck`, `Pipeline.RunsAreSafe`, `PipelineRuns.History` and
`Envelope.EnvelopeRoundTrip`.

## What was found

- A `SIGNED_BUNDLE` frame is processed only if some read of at most 4096 bytes ends exactly at its last byte; the
  same bytes cut otherwise are NACKed. `HandlerProperties.Chunking` is the exact condition, and
  `Witnesses.SameBytesOtherAnswer` shows the two answers for any frame with one byte after it.
- A NACK does not always mean "not ingested". When the ACK body for an over-long id exceeds the frame cap, an
  ingested transaction is answered with a NACK. `HandlerProperties.FirstNackAndIngest` says this happens exactly
  then; `Witnesses.IngestedButNacked` gives an envelope that fits in a frame and meets this fate at every gateway
  that admits it; `Responses.ShortIdsFit` shows ids of up to 800,000 characters are safe.
- `asyncio.Queue` takes a limit of zero or less as no limit, so the bound on work in flight holds only for positive
  limits; `Pipeline.UnlimitedQueueGrows` shows it fails otherwise.
- A transaction with an exception in the signer or the policy stage, with a misconfigured recipient, or with no
  attempts allowed, ends without dead letter. Conservation therefore has a `dropped` bucket, and `Pipeline.FinishedStates` says exactly which
  transactions leave transmission without a record.
- With retries `collect` has one row per pair of ACKED records of a transaction, not one per transaction
  (`Telemetry.CollectCount`); the grouped join of the analysis has one (`Telemetry.GroupedJoinRows`).

## Model

| member | source | states |
|---|---|---|
| FrameCodec.UnpackPack | packages/qstie-common/qstie_common/protocol/frame_codec.py:24-36 | unpacking a packed big-endian 32-bit length gives it back |
| FrameCodec.PackUnpack | packages/qstie-common/qstie_common/protocol/frame_codec.py:36 | every four bytes are the packing of exactly one length below 2^32 |
| FrameCodec.TypeBytes | packages/qstie-common/qstie_common/enums/protocol_enums.py:3-6 | the three type bytes, and that no other byte is a type |
| FrameCodec.HeaderDecides | packages/qstie-common/qstie_common/protocol/frame_codec.py:33-53 | from the buffer's own bytes: fewer than five wait, then an unknown type is an error before an over-long declared length is, and a frame is exactly the declared bytes |
| FrameCodec.WholeFrameOnly | packages/qstie-common/qstie_common/protocol/frame_codec.py:59-63 | missing and trailing bytes are malformed, header errors are passed on |
| FrameCodec.DecodeEncoded | packages/qstie-common/qstie_common/protocol/frame_codec.py:27-53 | an encoded frame followed by anything decodes to its message and leaves the rest untouched |
| FrameCodec.FrameRoundTrip | packages/qstie-common/qstie_common/protocol/frame_codec.py:20-64 | encoding succeeds exactly within the cap and 32 bits, and encode and decode are inverse in both directions |
| FrameCodec.DecodeStable | packages/qstie-common/qstie_common/protocol/frame_codec.py:33-53 | an error or a frame, once decoded from a buffer, is not changed by later bytes |
| FrameCodec.ParseExtend | packages/qstie-common/qstie_common/protocol/frame_codec.py:33-53 | parsing a longer stream only extends what was parsed of the shorter one |
| FrameCodec.Reassemble | tests/protocol/test_stream_fragmentation.py:29-44 | the buffer-and-drain loop yields, for every fragmentation, what the unfragmented bytes contain, errors included |
| FrameCodec.ParseEncoded | tests/protocol/test_stream_fragmentation.py:29-44 | concatenated encodings contain exactly the messages sent, in order, with an empty remainder |
| Utf8.RoundTrip | packages/qstie-common/qstie_common/models/envelope.py:47-56 | every text is recovered by a strict decoder from its UTF-8 encoding |
| Utf8.DecodeIsStrict | packages/qstie-common/qstie_common/models/envelope.py:47-53 | the decoder accepts only what the encoder writes: no overlong forms, surrogates or stray bytes |
| Utf8.KnownCharacters | packages/qstie-common/qstie_common/models/envelope.py:35-42 | a character of each length has its standard encoding |
| Protobuf.VarintRoundTrip | proto/qstie.proto:5-14 | every 64-bit value is recovered from its Base 128 varint of at most ten bytes, whatever follows |
| Protobuf.VarintDigits | proto/qstie.proto:5-14 | a varint is the number's base-128 digits, lowest first, with the top bit on all bytes but the last |
| Protobuf.TwosComplement | proto/qstie.proto:13 | a timestamp is sent as the 64-bit number congruent to it, and read back |
| Protobuf.NegativeTakesTenBytes | proto/qstie.proto:13 | every negative timestamp takes ten bytes |
| Protobuf.RecordLayout | proto/qstie.proto:5-14 | each kind of record is its field number and wire type, then its value |
| Protobuf.UnendingVarint | proto/qstie.proto:5-14 | more than ten bytes, or bytes that end too early, are no varint |
| Protobuf.RefusedRecords | proto/qstie.proto:5-14 | field numbers out of range, other wire types and values cut short are refused |
| Protobuf.RecordsRoundTrip | proto/qstie.proto:5-14 | any list of wire records, known or unknown, is read back as written |
| Envelope.ProtoRoundTrip | proto/qstie.proto:5-14 | parsing a serialized message restores all eight fields, defaults omitted on the wire included |
| Envelope.FieldsRoundTrip | packages/qstie-common/qstie_common/models/envelope.py:18-44 | `from_proto` undoes `to_proto` wherever the latter succeeds |
| Envelope.EnvelopeRoundTrip | packages/qstie-common/qstie_common/models/envelope.py:46-56 | `from_bytes` undoes `to_bytes` for every envelope that serializes: empty fields, negative timestamps, all markings |
| Envelope.MarkingTexts | packages/qstie-common/qstie_common/enums/protocol_enums.py:23-26 | the texts of the three markings, and that no other text is one |
| Envelope.RecordMeaning | packages/qstie-common/qstie_common/models/envelope.py:46-53 | what a record of any field number does to the message, field by field; unknown ones are skipped and text must be UTF-8 |
| Envelope.LastRecordWins | packages/qstie-common/qstie_common/models/envelope.py:46-53 | of several records of a field the last one counts |
| Envelope.FromProtoFields | packages/qstie-common/qstie_common/models/envelope.py:18-32 | every field is taken over as it is; no marking means GREEN, an unknown one is an error |
| Envelope.SerializingFails | packages/qstie-common/qstie_common/models/envelope.py:34-56 | serialization fails exactly on a timestamp outside int64 or a message of 2 GiB |
| Vectors.SerializedForm | proto/qstie.proto:5-14 | the serialized envelope byte by byte: each field under its own tag, in number order, empty ones omitted |
| Vectors.RecordedVectors | results/phase1/evidence/golden_vectors.json:2-15 | the two recorded inputs serialize to 132 and 73 bytes and their frames start with the recorded ten bytes |
| InboundPep.FirstMatchWins | gateway_b/policy/pep_inbound.py:9-23 | the decision is the action of the first rule that names the sender, the recipient and the marking, or "*", and says DENY or ALLOW, in both directions |
| InboundPep.DeployedDecision | gateway_b/main.py:49-53 | the deployed rules allow exactly RAW to NIA with GREEN or AMBER, and deny by name exactly RAW to NIA with AMBER_STRICT |
| OutboundPep.LastRuleDecides | gateway_a/policy/pep_outbound.py:13-30 | permission is that of the last rule given for the marking; a marking without rule is denied |
| OutboundPep.DenialReasons | gateway_a/policy/pep_outbound.py:22-28 | which of the two reasons a denial has, and their texts |
| OutboundPep.DeployedPermission | gateway_a/main.py:41-45 | the deployed table permits exactly GREEN to NIA and ALLY_X and AMBER to NIA |
| OutboundPep.DeployedTablesAgree | gateway_a/main.py:41-45 | for each marking A's deployed table permits NIA exactly when B's deployed rules allow RAW to NIA |
| OutboundPep.SelectMarking | gateway_a/ingestion/stix_extractor.py:88-98 | the tag loop returns the marking whose name, in any mixture of cases, the last recognised tag spells, AMBER if none is recognised |
| OutboundPep.TextIsTag | gateway_a/ingestion/stix_extractor.py:88-98 | each marking's own text is a tag of that marking |
| TrustStore.Store.Load | gateway_b/trust/cert_store.py:17-38 | loading succeeds exactly on complete documents, with the error named otherwise, keeps the last entry of each agency id, and revokes exactly the listed fingerprints |
| Responses.FitsIsEncodable | gateway_b/transport/protocol.py:83-93 | the counted size of a response's JSON body decides exactly whether `encode_frame` accepts it |
| Responses.DeployedCap | packages/qstie-common/qstie_common/protocol/frame_codec.py:14 | the deployed codec accepts exactly payloads of up to 10,485,760 bytes |
| Responses.ReasonTexts | packages/qstie-common/qstie_common/enums/protocol_enums.py:8-15 | the texts of the seven reasons |
| Responses.BodyTexts | gateway_b/transport/protocol.py:83-90 | the bodies of ACK and NACK around the escaped id |
| Responses.EscapedCharacters | gateway_b/transport/protocol.py:84-90 | a character stands for itself in a body exactly if it is printable ASCII and neither quote nor backslash; the short escapes of the others |
| Responses.EscapedExample | gateway_b/transport/protocol.py:84-90 | other characters are written in lower-case hexadecimal |
| Responses.ShortIdsFit | gateway_b/transport/protocol.py:83-93 | every response to an id of at most 800,000 characters can be framed, whatever its characters escape to |
| Gates.ExamineFollowsGates | gateway_b/transport/protocol.py:101-163 | a payload reaches ingestion exactly when all thirteen independent gates pass, and otherwise the NACK reason is that of the first failing one |
| Gates.EmptyFieldIsMalformed | gateway_b/transport/protocol.py:105-108 | an envelope with an empty id, sender, signature or bundle is refused as MALFORMED with nothing checked, and an admitted one has all four |
| Gates.IdentityRefusals | gateway_b/transport/protocol.py:113-127 | UNKNOWN_SENDER, IDENTITY_MISMATCH, REVOKED_CERT and the missing keys, each exactly when its cause is in the trust store |
| Gates.TrustedVerdict | gateway_b/transport/protocol.py:129-163 | for a trusted peer: SIG_INVALID, POLICY_DENIED, the two decompression and STIX refusals or admission, with the checks done until then |
| Gates.ExamTrace | gateway_b/transport/protocol.py:101-163 | the checks done are a prefix of verify, policy, decompress on the envelope's own fields, each only after the last succeeded |
| Handler.StepKeepsInv | gateway_b/transport/protocol.py:47-181 | every await-to-await step, from any reachable state and for any input, keeps the invariant that fixes writes, trace and phase |
| Handler.RunKeepsInv | gateway_b/transport/protocol.py:47-181 | every run of the handler satisfies that invariant |
| Handler.SendAnswers | gateway_b/transport/protocol.py:83-93 | a send writes one response that fits, or climbs the exception handlers until one does or the connection closes |
| Handler.RaiseAnswers | gateway_b/transport/protocol.py:73-80 | an exception adds at most one response, and none only when it closes the connection |
| HandlerProperties.ChecksPrecedeEffects | gateway_b/transport/protocol.py:129-166 | in every run each decompression follows a valid signature and a policy allow on the same bytes, and each ingest follows all gates |
| HandlerProperties.AckDiscipline | gateway_b/transport/protocol.py:165-181 | under any drain failures an ACK is written at most once, only after ingest returned true, never after another response; a telemetry record is the last event, right after the write of the one ACK for its id, and is made exactly when that ACK's drain returned |
| HandlerProperties.ExactlyOneResponse | gateway_b/transport/protocol.py:57-93 | without drain failures a closed connection has written exactly the one response owed, or none if it saw neither frame nor error |
| HandlerProperties.FirstNackAndIngest | gateway_b/transport/protocol.py:73-93 | an ingested transaction is first answered with a NACK exactly when its ACK is too large to frame |
| HandlerProperties.Chunking | gateway_b/transport/protocol.py:49-76 | for every stream and every split into non-empty reads: bad header one NACK, incomplete frame nothing, whole frame processed exactly when some read ends at its last byte, else one NACK |
| HandlerProperties.BufferBound | gateway_b/transport/protocol.py:49-58 | the receive buffer never exceeds the cap plus 4100 bytes |
| HandlerProperties.AckIsForDelivery | gateway_b/transport/protocol.py:165-174 | an ACK can only be the first response, carries the decoded envelope's id, and implies ingest returned true |
| HandlerProperties.DeliveredIsIngestTrue | gateway_b/transport/protocol.py:165-169 | the trace holds an accepted ingest exactly when the ingestor returned true |
| HandlerProperties.IngestedTrace | gateway_b/transport/protocol.py:129-166 | an ingest is the fourth event, after the three successful checks, of the document in the checked bytes |
| HandlerProperties.TraceLayout | gateway_b/transport/protocol.py:101-181 | every trace is checks, at most one ingest, the responses in order, and the log record exactly after a drained ACK |
| ReceiverCode.ServeIsRun | gateway_b/transport/protocol.py:35-81 | serving a connection from its reads, its ingest answer and its drains is a run of the handler machine |
| ReceiverCode.AllDrainsFail | gateway_b/transport/protocol.py:101-181 | if every drain fails, a response inside an inner `try` is followed by two MALFORMED ones, inside the outer by one, and from an exception handler by none |
| ReceiverCode.ServeDelivers | gateway_b/transport/protocol.py:50-76 | serving a connection is delivering its reads up to the first empty or failing one, and then answering |
| ReceiverCode.ServedChunking | gateway_b/transport/protocol.py:49-81 | the chunking theorem of the code: for every script of reads, empty and raising ones included, every ingest answer and every drain failure |
| Witnesses.SameBytesOtherAnswer | gateway_b/transport/protocol.py:58-71 | for any bundle frame with one byte after it: processed if a read stops at the frame's last byte, NACKed unread if the extra byte comes in the same read |
| Witnesses.IngestedButNacked | gateway_b/transport/protocol.py:73-93 | an envelope with two million control characters as id fits in a frame, and every gateway that admits it ingests it and answers NACK "0" MALFORMED; there is such a gateway |
| ReceiverCode.Session.SendNack | gateway_b/transport/protocol.py:83-87 | writes the NACK if it can be framed and then drains, raising what the source raises |
| ReceiverCode.Session.SendAck | gateway_b/transport/protocol.py:89-93 | writes the ACK if it can be framed and then drains, raising what the source raises |
| ReceiverCode.ProcessTransaction | gateway_b/transport/protocol.py:95-181 | the nested code with its inner and outer exception handlers writes and does what the machine does, for all drain failures |
| ReceiverCode.HandleConnection | gateway_b/transport/protocol.py:35-81 | the read loop writes and does exactly what the machine does, for every fragmentation, read failure, ingest answer and drain failure |
| Exchange.FramingAgrees | gateway_a/transport/protocol.py:36-39 | the hand-packed frame is `encode_frame`'s within the cap, and one above the cap is rejected by the decoder |
| Exchange.FrameCarriesEnvelope | gateway_a/transport/protocol.py:24-39 | whatever payload B decodes from A's frame is an envelope with the transaction's own eight fields, each in its place |
| Exchange.ReaderAgreesWithCodec | gateway_a/transport/protocol.py:44-66 | on every stream in which the shared codec finds a frame or needs more, the three-step reader sees the same |
| Exchange.ReadsDeclared | gateway_a/transport/protocol.py:44-66 | on any stream the reader takes five bytes and then as many as they declare, whatever the type and the cap |
| Exchange.Classification | gateway_a/transport/protocol.py:51-66 | the result for every type byte and body: success exactly for an ACK of the own id, and the text of each other outcome |
| Exchange.EndingTexts | gateway_a/transport/protocol.py:68-75 | the texts for reads that time out, are refused or break |
| Exchange.ReadsFirstResponse | gateway_a/transport/protocol.py:44-75 | of several responses cut off anywhere, the sender sees the first one's meaning or the failure of the read |
| Exchange.JsonLawHolds | gateway_b/transport/protocol.py:83-93 | for the bodies B writes the JSON law of the composed system follows from their decoding alone: their counted sizes are right |
| Json.ReadWrittenText | gateway_b/transport/protocol.py:84-90 | escaping any text, control characters and surrogate pairs included, and reading it back gives the text and stops at its closing quote |
| Json.BodyRoundTrip | gateway_b/transport/protocol.py:83-93 | every response body B writes decodes to the id and reason it encodes, whatever the id |
| Json.JsonLawIsMet | gateway_a/transport/protocol.py:52-63 | so the JSON law that the composed system asks for is met by B's bodies and a concrete reader |
| Exchange.PqcSession.SendEnvelope | gateway_a/transport/protocol.py:18-75 | the frame is written once and the result is the function of the arriving bytes that `ReadResponse` defines, each exception mapped as in the source |
| DeadLetters.DeadLetterStore.Add | gateway_a/pipeline/dead_letter.py:15-30 | the window stays the last `maxlen` entries of all added; the log grows unless the append fails |
| DeadLetters.SuffixIsLast | gateway_a/pipeline/dead_letter.py:12 | the window is as long as it can be up to `maxlen` and holds the last entries in order |
| DeadLetters.DeadLetterStore.Snapshot | gateway_a/pipeline/dead_letter.py:32-33 | the snapshot is the last `maxlen` added, hence of the log when no append failed |
| Transmission.ProcessTransaction | gateway_a/pipeline/transmission_worker.py:31-87 | one final attempt decides state, dead letter and telemetry; all earlier ones were retryable; the sleeps are exactly the backoffs between attempts |
| Transmission.AttemptOutcomes | gateway_a/pipeline/transmission_worker.py:50-87 | what each attempt leads to, with the three retried reasons and the dead-letter reasons by name |
| Transmission.Backoffs | gateway_a/pipeline/transmission_worker.py:54-56 | the first backoff is the base and each is the factor times the one before |
| Transmission.DeployedBackoffs | gateway_a/config.py:34-36 | with the default configuration the backoffs are 200 and 400 milliseconds |
| Transmission.TotalBackoff | gateway_a/pipeline/transmission_worker.py:54-56 | total sleep times (factor - 1) equals base times (factor^n - 1), from the first attempt, and the difference of powers from any later one |
| Pipeline.ApplyKeepsConserved | gateway_a/main.py:25-58 | every action keeps each created transaction in exactly one queue, hand or bucket, in creation order |
| Pipeline.ApplyKeepsPlaced | gateway_a/pipeline/signer_worker.py:33-67 | every action keeps what is known of a transaction by where it is: validated, signed over its compressed bundle, permitted, counted attempts |
| Pipeline.ApplyKeepsDeadLettered | gateway_a/pipeline/pep_worker.py:33-37 | every action keeps exactly one dead letter per refused or FAILED transaction and none besides |
| Pipeline.RunsAreSafe | gateway_a/main.py:22-58 | all of this, and the queue limits, in every state of every interleaving of the four workers |
| Pipeline.InFlightBound | gateway_a/main.py:25-58 | with positive limits the unfinished work is at most the three limits plus four |
| Pipeline.UnlimitedQueueGrows | gateway_a/main.py:25-28 | with a limit of zero or less, any amount of work can be in flight in that queue |
| Pipeline.FinishInOrder | gateway_a/main.py:49-58 | transactions finish transmission in a subsequence of extraction order |
| PipelineRuns.OnePlace | gateway_a/main.py:25-58 | no transaction is in two places, queues, hands, finished, rejected and dropped ones included, and every created one is in one |
| Pipeline.FinishedStates | gateway_a/pipeline/transmission_worker.py:31-87 | in every run: unrecorded exactly if misconfigured or no attempts are allowed, FAILED without attempt exactly if unrouted, ACKED or FAILED within the limit exactly if routed and attempts are allowed |
| PipelineRuns.LaterIsPath | gateway_a/models.py:8-17 | the states that may still come are exactly those reached along the successors, and never the state itself |
| PipelineRuns.ActionMoves | gateway_a/pipeline/pep_worker.py:21-37 | in one action every transaction stays somewhere and makes at most one move along its path and one more attempt |
| PipelineRuns.History | gateway_a/pipeline/transmission_worker.py:44-87 | between any two moments of any run a transaction only moves along VALIDATED, SIGNED, POLICY_APPROVED or POLICY_REJECTED, SENDING or FAILED, ACKED or FAILED; attempts never decrease; its source fields and, once made, its bundle and signature stay |
| PipelineRuns.CreatedHasHistory | gateway_a/main.py:25-58 | every transaction created is somewhere, then and at every later moment of the run, further along its path |
| PipelineRuns.EndedStaysAsIs | gateway_a/pipeline/transmission_worker.py:61-87 | a finished, rejected or dropped transaction does not change any more |
| PipelineRuns.LettersAreTrue | gateway_a/pipeline/transmission_worker.py:31-87 | in every run each dead letter has the id and state of a transaction that policy refused, with the reason, or that FAILED: unrouted, after the last allowed attempt, or on a named refusal |
| PipelineRuns.SomeWorkerCanAct | gateway_a/main.py:49-58 | as long as work is in flight some worker can act without a new event, and without raising if signing works |
| PipelineRuns.ActionsAreBounded | gateway_a/pipeline/transmission_worker.py:44-87 | in every run the actions other than extraction are at most six and three per allowed attempt for each transaction created |
| PipelineRuns.CanFinish | gateway_a/main.py:49-58 | from every reachable state the work in flight can be finished without new events, and without losses if signing works |
| Workers.StixExtractor.Extract | gateway_a/ingestion/stix_extractor.py:44-63 | the extractor creates the object that the pipeline's extract action puts in its hand, marked by its tags |
| Workers.StixExtractor.Put | gateway_a/ingestion/stix_extractor.py:55 | the put of the extracted object is the pipeline's action |
| Workers.SignerWorker.Sign | gateway_a/pipeline/signer_worker.py:37-55 | updating the object field by field is the pipeline's sign action, or its drop action if the signer raises |
| Workers.SignerWorker.Put | gateway_a/pipeline/signer_worker.py:57-60 | the put of the signed object is the pipeline's action |
| Workers.PepWorker.Judge | gateway_a/pipeline/pep_worker.py:21-46 | approving, dead-lettering or losing the object is the pipeline's policy action |
| Workers.PepWorker.Put | gateway_a/pipeline/pep_worker.py:30-31 | the put of the approved object is the pipeline's action |
| Workers.AttemptsRun | gateway_a/pipeline/transmission_worker.py:44-87 | repeated attempts are the corresponding sequence of the pipeline's actions, each enabled in turn |
| Workers.TransmissionEnds | gateway_a/pipeline/transmission_worker.py:44-87 | the state those actions end in: the transaction finished with its attempt count and state, and its dead letter if it failed |
| Workers.TransmissionWorker.Turn | gateway_a/pipeline/transmission_worker.py:18-29 | one turn of the worker's loop is a sequence of the pipeline's actions that ends in what the object and the store now hold |
| System.RefinesPipeline | gateway_a/main.py:49-58 | every event of the composed system is an enabled pipeline action or leaves the pipeline alone |
| System.RunsAreSound | gateway_a/main.py:49-58 | every reachable state of both gateways satisfies the invariant that ties each connection to the attempt that opened it |
| System.OwnedPayload | gateway_b/transport/protocol.py:102-105 | however much of A's frame has arrived, a payload B accepts on that connection decodes to an envelope with the own eight fields of the transaction |
| System.AckedWasIngested | gateway_a/pipeline/transmission_worker.py:61-73 | in every run an ACKED transaction was signed, permitted, and ingested by B on one of its own connections as the bundle in exactly the bytes signed; and that is A's bundle if inflate undoes compress |
| System.DuplicateBound | gateway_b/transport/protocol.py:165-177 | in every run B's successful ingests and telemetry records on one transaction's connections never exceed A's attempts, nor `max_attempts` |
| System.DeadLettersExplained | gateway_a/pipeline/transmission_worker.py:74-87 | every dead letter has one of A's own reasons, or "NACK_" and the reason B first answered on a connection of that transaction, where nothing was ingested if the id is safe |
| System.NackReadIsFinal | gateway_a/pipeline/transmission_worker.py:74-87 | in every run, reading B's NACK ends the transaction as FAILED with one dead letter and no later connection is opened for it |
| System.NoAttemptAfterEnd | gateway_a/pipeline/transmission_worker.py:44-87 | after a transaction ended, no later state of the run has a new connection of it |
| System.MarkingIsPreserved | gateway_b/transport/protocol.py:142-146 | in every run B's policy judges the marking that the last recognised tag of the source event spells, AMBER if none |
| System.DeployedPoliciesAgree | gateway_b/main.py:49-53 | with the deployed tables no RAW-to-NIA transaction let out by A is answered POLICY_DENIED, in any run |
| System.RunsProject | gateway_a/main.py:49-58 | every run of the composed system contains a run of the pipeline through the same states |
| System.TransactionHistory | gateway_a/pipeline/transmission_worker.py:44-87 | the history of a transaction holds in the composed system |
| System.PermitsAreConserved | gateway_b/transport/tls_server.py:28-64 | in every run the semaphore's counter and the permits held add up to `max_concurrent` |
| System.ReadSizes | gateway_b/transport/protocol.py:51 | a waiting handler can be given any 1 to 4096 of the bytes sent, and no more |
| System.HandlersHoldPermits | gateway_b/transport/tls_server.py:61-64 | in every run a handler does nothing before its permit and gives it back only after the connection is closed |
| System.HandlersAreBounded | gateway_b/transport/tls_server.py:61-66 | in every run the handlers at work and the permits left are at most `max_concurrent`, and every receive buffer is bounded |
| Strangers.IngestsAreAuthentic | gateway_b/transport/protocol.py:113-166 | in every run, on A's and on strangers' connections, whatever is ingested came from a peer with the unrevoked certificate pinned for the sender it names, in bytes that verify under that sender's key and that the policy allows |
| Strangers.SenderIngestsAreOwned | gateway_b/transport/protocol.py:113-122 | if no stranger presents the sender's pinned certificate, every ingest under its name is on a connection A opened, of the envelope A built, signed and permitted |
| Strangers.DuplicateBoundForSender | gateway_b/transport/protocol.py:113-177 | and B's successful ingests for an id under that name, on any connection, never exceed A's attempts |
| Progress.RunsCanFinish | gateway_a/main.py:49-58 | every run of the composed system can be continued without new events at A until nothing is in flight |
| Progress.PermitCanBeHad | gateway_b/transport/tls_server.py:61-64 | if the semaphore was created with a permit, some continuation has one free, with A's side unchanged |
| Progress.RunsCanAck | gateway_a/pipeline/transmission_worker.py:47-73 | whenever A is about to open a session for a transaction whose payload B would admit and acknowledge, the run can be continued until it is ACKED |
| Progress.AckedRunExists | gateway_a/main.py:49-58 | from the start there is a run in which a transaction that can be signed, permitted, routed and admitted is ACKED |
| Deployment.DeployedRunAcks | gateway_b/main.py:49-53 | with both deployed policies and stand-ins for the libraries there is a run that ends with a transaction ACKED |
| Telemetry.ParseJsonl | benchmark_runner/telemetry.py:73-92 | blank and malformed lines are skipped and the records kept in order |
| Telemetry.KeptLineByLine | benchmark_runner/telemetry.py:80-92 | lines are kept or skipped one by one: exactly the parsed records, in order |
| Telemetry.AckedSpelling | benchmark_runner/telemetry.py:51-58 | a state counts as ACKED exactly if it spells the word in any mixture of cases |
| Telemetry.CollectCount | benchmark_runner/telemetry.py:48-69 | the plain join has for each id the product of the two numbers of ACKED records |
| Telemetry.CollectedRows | benchmark_runner/telemetry.py:48-69 | the rows of the plain join are exactly the pairs of ACKED records of one transaction |
| Telemetry.GroupedJoinRows | analyze_telemetry.py:118-126 | the grouped join has one row exactly for the ids in both files, with the earliest receipt at A and the latest of every other time |
| Telemetry.LatencyDecomposition | analyze_telemetry.py:144-148 | end-to-end latency is at least crypto path plus network transit for any duplicates and any clock offset, if each record's own times do not decrease |
| Telemetry.ExactDecomposition | analyze_telemetry.py:143-148 | end-to-end is crypto path plus transit plus the two remaining parts, and shifting one gateway's clock leaves the crypto path alone |
| Telemetry.WindowSize | analyze_telemetry.py:131-135 | the window is a thousand consecutive rows whenever more exist, all rows otherwise, and drops at the end only after a full warm-up |
| Telemetry.AnalysedRows | analyze_telemetry.py:126-150 | of the grouped join's sorted rows the window takes a thousand whenever more exist, of different transactions in both files, and each row with positive parts has a positive end-to-end latency of at least their sum |
| RunTelemetry.LogACount | gateway_a/pipeline/transmission_worker.py:65-73 | A's file holds one record for a transaction exactly when it is ACKED and the append did not fail, and never two |
| RunTelemetry.LogAHolds | gateway_a/observability/telemetry_logger.py:7-19 | A's file holds exactly the records of ACKED transactions whose append did not fail |
| RunTelemetry.LogBHolds | gateway_b/observability/telemetry_logger.py:7-21 | B's file holds exactly the records of its handlers' telemetry events whose append did not fail |
| RunTelemetry.LogBCount | gateway_b/transport/protocol.py:176-177 | B's file holds, for an id, at most the records of A's own connections and those of strangers, and all of them if no append failed |
| RunTelemetry.JoinedRows | benchmark_runner/telemetry.py:48-69 | in every run, whatever appends fail, the join has no row for a transaction without an ACKED record at A, and otherwise at most its attempts plus strangers' records; B's records exactly if none was lost |

## Left out

- TLS, certificates, signatures, SHA-256, zlib, JSON parsing, MISP-to-STIX conversion and OpenCTI: function parameters or free inputs; the only laws used are that B's JSON bodies decode to what was encoded (`JsonLaw`, which `Json.JsonLawIsMet` shows can be met) and, where stated, that inflate undoes compress.
- `qstie_pb2` is not part of this model as code: parsing follows the public Encoding specification. Groups (wire types 3 and 4) are refused, and a varint above 64 bits is cut to 64 bits, which differs from parsers that reject it.
- Strings are sequences of Unicode scalar values; a Python `str` with lone surrogates is not modelled, except that an id decoded from a frame cannot have any.
- `writer.write` does not raise in the model, and closing a connection has no effect on what was written; `drain` may raise at any send.
- Shutdown by `stop()`, cancellation, the ZeroMQ listener and its reconnects: no claim about clean shutdown or progress.
- Wall-clock time: a timeout is an event that may happen at any read, and backoff is in whole milliseconds.
- The ingestion queue in front of the extractor holds events, not transactions, and failed conversions create none; both are outside the pipeline state.
- Fresh transaction ids: `uuid4` is assumed not to repeat an id within a run.
- Workers.TransmissionWorker.Turn: proved for the worker alone, with the dead-letter store untouched by the policy stage during the turn; the interleaving of all stages is what `Pipeline` covers on values.
- Workers.SignerWorker.Sign: as for the extractor and the policy worker, aliasing between one worker's queues and hand is modelled, aliasing across workers is not; that no transaction is in two places is `PipelineRuns.OnePlace`.
- The composed system takes A's three reads of a response as one step at the moment the last one ends, and any failure before the first read (`WriteFails`) as possible at any time.
- A worker's exception is modelled where the object would be lost; a file append that fails inside `DeadLetterStore.add` is caught there.
- `self.running`, log messages, `task_done` and Prometheus metrics.
- Telemetry.CollectCount: row order, columns and missing keys of the joined frame are not modelled; a missing `state` is any text other than ACKED.
- Telemetry.AnalysedRows: the sort is any order by receipt time, ties included; times are integers in nanoseconds, so dividing by a million is left out.
- The order in which the semaphore lets waiting connections in, and how long `wait_closed()` takes.
- Means, medians, confidence intervals and plots; Docker, network emulation, PKI set-up and reports.
- A round trip between `RevocationList.save` and the trust store: they use different document keys.
