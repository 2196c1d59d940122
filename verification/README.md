# SECS/GEM equipment driver: a verified model

This project models the hard core of go-factory-io, an equipment driver for the
semiconductor industry, and proves what that core is for.

- **SECS-II codec** (section 9 of SEMI E5). Items, their wire form, the encoder
  and the decoder as methods over buffers and offsets; round trip, prefix
  property, canonical form byte by byte (`Secs2*.dfy`).
- **HSMS transport** (sections 7 and 8 of SEMI E37). Framing on a byte stream;
  one session as a machine of atomic steps, in which the read loop and every
  waiting sender are separate goroutines; two such sessions joined by FIFO
  links, of messages and of bytes; the session object whose methods perform
  those steps (`Hsms*.dfy`).
- **GEM handler, schema checker and policy** (SEMI E30). The built-in S1, S2 and
  S5 messages, the recursive checker with its default schemas, and the way of a
  reply from the handler over the wire to the host's verdict (`Gem*.dfy`,
  `Schema*.dfy`, `SecurityPolicy.dfy`).
- **E87, E40 and E94 managers against the independent observer** of state
  changes (`Carriers.dfy`, `Jobs.dfy`, `StateValidator.dfy`,
  `StateAgreement.dfy`, `CallEffects.dfy`).
- **Run-level arithmetic and concurrency**: the webhook batcher with stale
  timers, the token bucket, the E116 time ledger (`Webhook.dfy`,
  `RateLimiter.dfy`, `Ept*.dfy`).
- **SML notation**: the parser, and exactly which items it can denote
  (`Sml*.dfy`).

State that the program updates in place is a class whose methods are proved
against a specification function; what the program promises is then proved of
that function over all inputs or all runs. `dafny verify dfyconfig.toml` checks
everything.

Five properties one might expect are false of the code. Each is stated with the
exact condition under which it holds, and a concrete run where that helps:

- Selecting is one-sided. What the active end sends after `Select` returned is
  never rejected (`SelectGuarantee`); what the passive end sends after accepting
  can be (`PassiveCanBeRejected`). It is refused if and only if the active end's
  read loop dispatches it before the store at the end of `Select`
  (`RefusedIffBeforeStore`), and the passive end is safe once it has read a data
  message (`DataShowsSelected`).
- S2F15 always answers "accepted", also for a constant that is unknown or
  declares a bound; such a constant is never set, because the received value is
  an item and not a number (`LastWriteWins`, `WriteThenRead`).
- `BindCarrier` and `DefinePort` check neither that an ID is fresh nor that a
  port is free; `ReadyToUnload` gives up its lock half-way (`BijectionIffCareful`,
  `AgreeingIffOrderly`, `SplitUnloadMarksWrongCarrier`).
- The observer's control-state table rejects the way the equipment goes online
  (`ControlAcceptedIffNeverOnline`, `GoingOnlineIsAViolation`).
- The number in `L:n` is documented as the child count; the parser does not look
  at it (`ListCountIsIgnored`, `WrongCountIsRead`).

## Model

| member | source | states |
|---|---|---|
| `Bytes.MasksAreArithmetic` | pkg/message/secs2/format.go:31-34 | the format, length and stream masks are the divisions and remainders the model uses |
| `Secs2Encode.LengthBytes` | pkg/message/secs2/encode.go:63-96 | the header uses the fewest of 1 to 3 length bytes that hold the length |
| `Secs2Encode.Encode` | pkg/message/secs2/encode.go:18-24 | succeeds exactly when every count and payload fits three length bytes, and then gives the wire form; nil is an error |
| `Secs2Encode.EncodeItem` | pkg/message/secs2/encode.go:26-61 | appends the wire form to the buffer and touches nothing before it, or reports a length that does not fit |
| `Secs2Encode.EncodeHeader` | pkg/message/secs2/encode.go:63-96 | appends format byte and minimal big-endian length, refuses lengths above 0xFFFFFF |
| `Secs2Encode.HeaderIs` | pkg/message/secs2/encode.go:63-96 | the header byte by byte for each of the three length ranges |
| `Secs2Encode.EncodeList` | pkg/message/secs2/encode.go:98-116 | the loop over children appends their encodings in order |
| `Secs2Encode.EncodeBoolean` | pkg/message/secs2/encode.go:146-161 | one byte per flag |
| `Secs2Encode.EncodeNumbers` | pkg/message/secs2/encode.go:163-293 | the ten numeric encoders: every element big-endian in its width |
| `Secs2Decode.Decode` | pkg/message/secs2/decode.go:10-19 | agrees with the parse of the data for every byte string, errors included |
| `Secs2Decode.DecodeMulti` | pkg/message/secs2/decode.go:22-34 | the loop yields all items from front to back, or the first error |
| `Secs2Decode.DecodeItem` | pkg/message/secs2/decode.go:37-101 | terminates on all inputs without reading outside the data; success advances by at least two bytes and ends within the data |
| `Secs2Decode.DecodeHeader` | pkg/message/secs2/decode.go:37-66 | reads format and length, or reports truncation, zero length bytes or an unknown format |
| `Secs2Decode.DecodeList` | pkg/message/secs2/decode.go:103-115 | the loop over the announced count agrees with the recursive parse |
| `Secs2Decode.DecodeLeaf` | pkg/message/secs2/decode.go:117-308 | every leaf decoder consumes exactly its payload and gives the value the bits mean |
| `Secs2Decode.DecodeNumbers` | pkg/message/secs2/decode.go:156-308 | the element loop reads every value of the payload in order |
| `Secs2Codec.HeaderReadBack` | pkg/message/secs2/decode.go:37-66 | every header the encoder writes is read back, whatever follows |
| `Secs2Codec.ParseWire` | pkg/message/secs2/decode.go:37-115 | decoding an encoding followed by any bytes gives the item (without empty text slots) and stops at the boundary |
| `Secs2Codec.RoundTrip` | pkg/message/secs2/decode.go:10-19 | Decode inverts Encode up to empty text slots, for every tree that fits |
| `Secs2Codec.MultiRoundTrip` | pkg/message/secs2/decode.go:22-34 | DecodeMulti inverts the concatenation of encodings |
| `Secs2Codec.NormKeepsWire` | pkg/message/secs2/decode.go:117-142 | leaving out empty text slots does not change the encoding |
| `Secs2Codec.EncodingIsInjective` | pkg/message/secs2/encode.go:18-116 | two items share an encoding if and only if they differ in empty text slots only |
| `Secs2Codec.EncodingIsPrefixFree` | pkg/message/secs2/encode.go:18-116 | no encoding is a proper prefix of another |
| `Secs2Codec.ParsedIsCanonical` | pkg/message/secs2/decode.go:37-115 | whatever is decoded can be encoded again in no more bytes than were read, is normal, and has at most half as many nodes as bytes |
| `Secs2Codec.CanonicalForm` | pkg/message/secs2/decode.go:43-66 | decode-then-encode never grows a body, keeps its meaning and is idempotent |
| `Secs2Codec.CanonicalDecidesMeaning` | pkg/message/secs2/decode.go:144-154 | two accepted bodies mean the same item if and only if their canonical forms are equal |
| `Secs2Canonical.ReencodingTidies` | pkg/message/secs2/decode.go:37-115 | re-encoding what was read is a rewriting of its bytes: fewest length bytes in every header, boolean bytes 0 or 1, every other byte as it was, at every depth |
| `Secs2Canonical.KeptIffTidy` | pkg/message/secs2/encode.go:63-96 | that rewriting never grows an item and keeps its bytes if and only if all headers are minimal and all boolean bytes 0 or 1 |
| `Secs2Canonical.CanonicalIsTidied` | pkg/message/secs2/decode.go:43-66 | decode-then-encode leaves a body as it is if and only if it is tidy, and else changes over-long length fields and nonzero booleans only |
| `Secs2Layout.FormatByteWritten` | pkg/message/secs2/format.go:12-34 | the first byte written carries the six-bit SEMI E5 format code of the item's format, by kind and number of octets, and the number of length bytes |
| `Secs2Layout.FormatByteRead` | pkg/message/secs2/decode.go:43-66 | whatever is parsed has the format whose SEMI E5 code its first byte carries |
| `Secs2Layout.NumberOnTheWire` | pkg/message/secs2/encode.go:163-293 | a number of every numeric format: its octets, the most significant first, two's complement for negative ones |
| `Secs2Layout.NumbersOnTheWire` | pkg/message/secs2/encode.go:163-293 | several numbers follow one another |
| `Secs2Layout.OthersOnTheWire` | pkg/message/secs2/encode.go:98-161 | strings and bytes go out as they are, flags as 1 and 0, children in order |
| `Secs2Layout.PartsOnTheWire` | pkg/message/secs2/encode.go:98-161 | the header comes first, then the payload or the children |
| `Secs2Layout.AnyLengthBytesAreRead` | pkg/message/secs2/decode.go:43-66 | one to three length bytes are accepted, however many the length needs |
| `Secs2Layout.LeafIsAccepted` | pkg/message/secs2/decode.go:117-308 | a leaf is accepted if and only if its payload is there and, for numbers, is made of whole elements |
| `Secs2Layout.ListIsAccepted` | pkg/message/secs2/decode.go:103-115 | a list is accepted if and only if its announced number of items is there, one after the other |
| `Secs2Layout.BodyIsAccepted` | pkg/message/secs2/decode.go:10-19 | a whole body is accepted if and only if one item fills it |
| `HsmsMessage.MarshalBinary` | pkg/transport/hsms/message.go:95-129 | the buffer filled position by position is length, ten header bytes and data, the 32-bit length wrap-around included |
| `HsmsMessage.MarshalReadBack` | pkg/transport/hsms/message.go:95-160 | UnmarshalBinary recovers a marshalled message, up to the seven stream bits, if and only if its length does not wrap around |
| `HsmsMessage.MaxMessageSize` | pkg/transport/hsms/config.go:128-133 | a positive configured limit is kept, otherwise 16 MiB |
| `HsmsMessage.Connection.ReadMessage` | pkg/transport/hsms/session.go:523-556 | takes exactly one frame from the stream and leaves the rest, or reports the error of its branch |
| `HsmsMessage.HeaderReadBack` | pkg/transport/hsms/message.go:95-160 | a header survives the wire if and only if its stream is below 128 |
| `HsmsLayout.HeaderLayout` | pkg/transport/hsms/message.go:99-123 | which header byte holds what (SEMI E37), by division and remainder |
| `HsmsLayout.FrameLayout` | pkg/transport/hsms/message.go:95-129 | four length bytes, the most significant first, then header and data |
| `HsmsLayout.ControlMessages` | pkg/transport/hsms/message.go:165-264 | the numbers in every control message sent, and the codes of SEMI E37 |
| `HsmsMessage.UnframeFrame` | pkg/transport/hsms/message.go:132-160 | UnmarshalBinary into an empty message inverts MarshalBinary whatever follows |
| `HsmsMessage.ReadFrameBack` | pkg/transport/hsms/session.go:523-556 | a frame is read back whole exactly when it is within the size limit, else it is reported as too large |
| `HsmsMessage.StreamReadBack` | pkg/transport/hsms/session.go:523-556 | any list of messages within the limit is recovered from the concatenated frames with no byte left over |
| `HsmsMessage.ByteQueueIsMessageQueue` | pkg/transport/hsms/session.go:434-445 | a FIFO of bytes behaves as a FIFO of messages |
| `HsmsTransactions.TransactionStep` | pkg/transport/hsms/session.go:447-474 | every atomic step keeps pending map and open transactions equal and answers matched to their numbers |
| `HsmsTransactions.StartIsExact` | pkg/transport/hsms/session.go:55-71 | a new session has no pending entry and no open transaction |
| `HsmsTransactions.TransactionsStayExact` | pkg/transport/hsms/session.go:447-474 | over every interleaving with distinct in-flight IDs, the pending keys are exactly the open transactions and every answer carries its request's ID |
| `HsmsTransactions.RegisterNeedsFreshId` | pkg/transport/hsms/session.go:447-451 | registering keeps the pending map exact if and only if the ID is not in use |
| `HsmsTransactions.LookupFindsOwner` | pkg/transport/hsms/session.go:558-570 | a message goes to a waiter if and only if that is the open transaction with its ID |
| `HsmsTransactions.OthersAreUntouched` | pkg/transport/hsms/session.go:447-474 | no step of one transaction removes or fills another's slot |
| `HsmsTransactions.ResultIsFinalForEver` | pkg/transport/hsms/session.go:462-473 | sendAndWait returns at most one result, which no later step changes |
| `HsmsTransactions.FirstReplyIsReturned` | pkg/transport/hsms/session.go:564-569 | once a reply is in a call's channel, over every run the call returns that reply or gives up |
| `HsmsTransactions.HowCallsEnd` | pkg/transport/hsms/session.go:459-473 | a call ends with the message in its channel, with nothing, or with the write error |
| `HsmsTransactions.CounterGivesDistinctIds` | pkg/transport/hsms/session.go:351-353 | if the session numbers all its requests itself, fewer than 2^32 steps never reuse an ID, whatever replies it sends |
| `HsmsInbound.InboundRuns` | pkg/transport/hsms/session.go:558-607 | over every run: queue at most 256; received then queued messages are the accepted arrivals in order; each arrival has the one fate prescribed for what the lookup and state check saw |
| `HsmsInbound.AcceptedIsSubsequence` | pkg/transport/hsms/session.go:572-586 | the accepted messages are an in-order selection of the arrivals |
| `HsmsInbound.ReceivedInOrder` | pkg/transport/hsms/session.go:386-396 | what the application has received is an in-order selection of what arrived |
| `HsmsInbound.ReplyRuns` | pkg/transport/hsms/session.go:612-627 | over every run each Reject.req answers one refused data message, with its own ID and reason 4, at most once |
| `HsmsInbound.AnsweredRuns` | pkg/transport/hsms/session.go:612-627 | over every run that loses no Reject.req to a failed write, every refused message is answered or is the read loop's next write |
| `HsmsInbound.RejectedIffRefused` | pkg/transport/hsms/session.go:572-586 | in such a run a message is answered with Reject.req if and only if it was a data message refused for not being selected |
| `HsmsHistory.DeselectedRefuses` | pkg/transport/hsms/session.go:678-686 | once a Deselect.rsp is written, and until another Select is accepted or the own Select returns, every data message dealt with is refused |
| `HsmsHistory.DeselectedRejects` | pkg/transport/hsms/session.go:572-580 | and answered with Reject.req, if none is lost to a failed write |
| `HsmsHistory.SelectedTakesData` | pkg/transport/hsms/session.go:658-676 | once a Select.rsp 0 is written, and until a Deselect.rsp or a close, no data message is refused and a further Select.req gets status 1 |
| `HsmsHistory.NoDropBelowCapacity` | pkg/transport/hsms/session.go:581-586 | while fewer than 256 messages wait, none is dropped |
| `HsmsHistory.SeparateEndsReading` | pkg/transport/hsms/session.go:600-602 | nothing is read after a Separate.req |
| `HsmsSelect.SelectKeptStep` | pkg/transport/hsms/session.go:658-676 | once Select.rsp 0 is written the state is Selected or the read loop is just about to store it |
| `HsmsSelect.BaseRuns` | pkg/transport/hsms/session.go:476-521 | what an end has read is a prefix of what its peer wrote, and a success Select acts on was read from the link |
| `HsmsSelect.GuaranteeRuns` | pkg/transport/hsms/session.go:558-586 | over every run without deselect, nothing the active end wrote after Select returned finds the passive end not selected |
| `HsmsSelect.SelectGuarantee` | pkg/transport/hsms/session.go:303-327 | in every interleaving in which the passive end does not leave Selected and its application makes up no Select.rsp, no message written after Select returned nil is answered with Reject.req |
| `HsmsLink.NextFrame` | pkg/transport/hsms/session.go:523-556 | the next frame on a link holds the oldest unread message, and there is one exactly when a message is unread |
| `HsmsLink.WiredRunsAreSystemRuns` | pkg/transport/hsms/session.go:434-445 | every run over byte links, with messages within the limits, is a run over messages, and the links hold the frames of what is unread |
| `HsmsLink.SelectGuaranteeOverBytes` | pkg/transport/hsms/session.go:303-327 | the Select guarantee holds over byte links |
| `HsmsScenarios.SelectCanReturn` | pkg/transport/hsms/session.go:303-327 | the guarantee is not empty: a reachable run in which Select returns nil |
| `HsmsScenarios.PassiveCanBeRejected` | pkg/transport/hsms/session.go:310-324 | the reverse direction fails: a reachable undisturbed run in which the active end rejects a message sent after its Select was accepted |
| `HsmsReverse.SelectedAcceptsWhatIsWritten` | pkg/transport/hsms/session.go:572-586 | in every interleaving, while the active end stays selected nothing the passive end writes from then on is refused |
| `HsmsReverse.AnswerShowsSelected` | pkg/transport/hsms/session.go:310-327 | having read a message written after Select returned, the passive end is never again answered with Reject.req while the active end does not leave Selected |
| `HsmsReverse.DataShowsSelected` | pkg/transport/hsms/session.go:346-349 | the same once the passive end has read any data message, because SendMessage and Send refuse data until selected |
| `HsmsReverse.RefusedIffBeforeStore` | pkg/transport/hsms/session.go:303-327 | an unmatched data message is refused if and only if the active end is not selected when it is dispatched; with no Select from the peer, if and only if the store at the end of Select has not happened |
| `HsmsSessionObject.Session.constructor` | pkg/transport/hsms/session.go:55-71 | the session starts disconnected with nothing pending |
| `HsmsSessionObject.Session.Register` | pkg/transport/hsms/session.go:346-353 | numbers a request with ID 0 and enters its reply channel, as one step of the machine |
| `HsmsSessionObject.Session.WriteRequest` | pkg/transport/hsms/session.go:459-461 | a written request waits, a failed write leaves with an error |
| `HsmsSessionObject.Session.Await` | pkg/transport/hsms/session.go:463-473 | the select statement takes the buffered reply or gives up |
| `HsmsSessionObject.Session.Unregister` | pkg/transport/hsms/session.go:453-457 | the deferred delete removes the call's own entry |
| `HsmsSessionObject.Session.FinishSelect` | pkg/transport/hsms/session.go:315-326 | Selected is stored exactly when the reply is Select.rsp with status 0 |
| `HsmsSessionObject.Session.ReceiveMessage` | pkg/transport/hsms/session.go:386-396 | the application takes the oldest queued message, or nothing when its context is done |
| `HsmsSessionObject.Session.FindPending` | pkg/transport/hsms/session.go:558-563 | the lookup comes first and finds the channel under the message's ID, if any |
| `HsmsSessionObject.Session.DeliverTo` | pkg/transport/hsms/session.go:563-570 | the non-blocking send fills an empty slot or drops the message |
| `HsmsSessionObject.Session.WriteMessage` | pkg/transport/hsms/session.go:434-445 | a reply is written before anything is stored |
| `HsmsSessionObject.Session.HandleData` | pkg/transport/hsms/session.go:572-586 | Selected decides between queue, drop and Reject.req |
| `HsmsSessionObject.Session.HandleSelectReq` | pkg/transport/hsms/session.go:658-676 | status 1 when already selected; Selected is stored only after a successful write of status 0 |
| `HsmsSessionObject.Session.HandleDeselectReq` | pkg/transport/hsms/session.go:678-686 | Connected is stored only after a successful write |
| `HsmsSessionObject.Session.HandleMessage` | pkg/transport/hsms/session.go:558-607 | run without interruption, the method performs exactly a run of the step machine |
| `SchemaValidator.ValidateItem` | pkg/validator/schema.go:150-237 | the early returns and the child loop give the specified findings |
| `SchemaValidator.ValidateChildren` | pkg/validator/schema.go:209-225 | one entry per declared child, missing optional ones excepted |
| `SchemaValidator.ProblemSays` | pkg/validator/schema.go:150-207 | which kind of finding a node gets, and with what in it |
| `SchemaValidator.ComputeMaxLevel` | pkg/validator/schema.go:254-262 | the result is attained and bounds every level |
| `SchemaValidator.VerdictIsConformance` | pkg/validator/schema.go:150-237 | FAIL if and only if the item does not conform; otherwise PASS if and only if no reached list lacks a non-optional child, else WARN |
| `SchemaValidator.FailuresAreLocated` | pkg/validator/schema.go:150-237 | a FAIL is reported at a path if and only if the node there breaks its own schema node and everything above is in order |
| `SchemaValidator.PathsExtend` | pkg/validator/schema.go:249-252 | every reported path lies below the node checked |
| `SchemaRegistry.ValidationPasses` | pkg/validator/schema.go:125-148 | a registered message passes if and only if its body conforms and is complete |
| `SchemaRegistry.BodyPresence` | pkg/validator/schema.go:125-147 | unknown messages have no verdict, a missing body FAILs, an unexpected one WARNs |
| `SchemaRegistry.AcknowledgementRanges` | pkg/validator/schema.go:276-508 | a one-byte acknowledgement passes if and only if it is a single byte up to the highest code of its message, and fails otherwise |
| `SchemaRegistry.IdentityReports` | pkg/validator/schema.go:276-508 | S1F2 passes if and only if both elements are ASCII |
| `SchemaRegistry.CommandReports` | pkg/validator/schema.go:276-508 | S2F42 passes if and only if HCACK is one byte up to 6 and a list follows |
| `SchemaRegistry.AlarmReports` | pkg/validator/schema.go:276-508 | S5F1 passes if and only if it is one byte, one U4 and ASCII |
| `SchemaRegistry.EventReports` | pkg/validator/schema.go:276-508 | S6F11 passes if and only if it is two single U4 and a list |
| `SecurityPolicy.DefaultPoliciesArePassive` | pkg/security/policy.go:33-101 | the monitor and the read-only policy deny every write message |
| `SecurityPolicy.PoliciesAllow` | pkg/security/policy.go:82-101 | exactly which messages the monitor and the read-only policy let through |
| `SecurityPolicy.DenialWins` | pkg/security/policy.go:45-79 | the deny list beats the allow list, which admits nothing else |
| `GemEquipment.Int32` | pkg/driver/gem/handler.go:766-776 | an int keeps its low 32 bits as a signed number |
| `GemEquipment.ValueToItem` | pkg/driver/gem/handler.go:766-796 | the item of a Go value is well typed, and fits the length field if and only if the string, bytes or item it comes from does |
| `GemHandler.EachRequested` | pkg/driver/gem/handler.go:273-300 | one item per requested ID in order, and an error exactly when some ID is not unsigned |
| `GemHandlerObject.Handler.constructor` | pkg/driver/gem/handler.go:74-97 | empty stores under the monitor policy |
| `GemHandlerObject.Handler.HandleMessage` | pkg/driver/gem/handler.go:160-246 | policy, dispatch and reply agree with the specification for some order of the map keys |
| `GemHandlerObject.Handler.HandleS1F3` | pkg/driver/gem/handler.go:273-300 | all variables for an empty request, else the requested ones in order |
| `GemHandlerObject.Handler.HandleStream1` | pkg/driver/gem/handler.go:265-346 | the S1 replies and the state machine moves they make |
| `GemHandlerObject.Handler.ReadConstants` | pkg/driver/gem/handler.go:351-423 | S2F13 and S2F29 change nothing and answer from the constants |
| `GemHandlerObject.Handler.HandleS2F15` | pkg/driver/gem/handler.go:384-404 | the loop over pairs sets the constants in order and always accepts |
| `GemHandlerObject.Handler.HandleS2F33` | pkg/driver/gem/handler.go:426-472 | deletes all, deletes one or defines reports |
| `GemHandlerObject.Handler.HandleS2F35` | pkg/driver/gem/handler.go:475-510 | links known events to known reports, in order |
| `GemHandlerObject.Handler.HandleS2F37` | pkg/driver/gem/handler.go:513-545 | enables or disables all or the listed events |
| `GemHandlerObject.Handler.HandleS2F41` | pkg/driver/gem/handler.go:550-592 | runs a registered command with its parameters, or answers why not |
| `GemHandlerObject.Handler.HandleStream2` | pkg/driver/gem/handler.go:351-592 | the S2 messages together |
| `GemHandlerObject.Handler.HandleS5F3` | pkg/driver/gem/handler.go:597-624 | enables or disables one known alarm by bit 7 |
| `GemHandlerObject.Handler.HandleStream5` | pkg/driver/gem/handler.go:597-663 | the S5 messages, S5F7 over the enabled alarms only |
| `GemTheorems.BuiltInIsTyped` | pkg/driver/gem/handler.go:265-663 | stored values stay well typed under every message, and every answer is well typed |
| `GemTheorems.CommandReplyPasses` | pkg/driver/gem/handler.go:588-591 | an S2F42 body passes if and only if its status is at most 6 |
| `GemTheorems.AnswerPasses` | pkg/validator/schema.go:276-508 | every built-in answer passes validation at the next function, except a command status above 6, which fails |
| `GemTheorems.ReplyKeepsNumber` | pkg/transport/hsms/session.go:351-353 | a reply carries its request's ID if and only if that is not 0 or the counter wraps to 0 |
| `GemTheorems.HostAcceptsReply` | pkg/simulator/host.go:104-113 | for every shaped request, store and policy: the reply is encoded, framed, read off the stream, decoded to the item built and judged PASS (FAIL only for a command status above 6) |
| `GemRuns.MessageMovesMachine` | pkg/driver/gem/handler.go:319-346 | messages move the state machine by its guarded methods only |
| `GemRuns.OnlineImpliesCommunicating` | pkg/driver/gem/state.go:112-204 | under any policy every reachable state is online only while communicating |
| `GemRuns.MonitoringChangesNothing` | pkg/security/policy.go:45-101 | under a policy that denies writes, no sequence of messages, denied ones in whatever shape, changes anything but the communication state |
| `GemAnswers.ValueIsRead` | pkg/driver/gem/handler.go:766-796 | the host reads a stored value back from its item, an int as its low 32 bits, other types as their printed text |
| `GemAnswers.AllValuesAreRead` | pkg/driver/gem/handler.go:274-283 | S1F3 and S2F13 without a body: item by item the value of each variable and constant |
| `GemAnswers.RequestedStatusIsRead` | pkg/driver/gem/handler.go:285-300 | S1F3: at every place the value of the variable requested there, the empty list for an unknown one |
| `GemAnswers.RequestedConstantsAreRead` | pkg/driver/gem/handler.go:362-381 | S2F13: at every place the value of the constant requested there, the empty list for an unknown one |
| `GemAnswers.RequestedId` | pkg/message/secs2/item.go:220-237 | a request names the first of its unsigned values, as 32 bits |
| `GemAnswers.NamesAreRead` | pkg/driver/gem/handler.go:303-316 | S1F12 and S2F30 entries: ID, name, bounds, value and units each in its place |
| `GemAnswers.AlarmEntryReads` | pkg/driver/gem/handler.go:627-642 | alarm entries: set bit and severity, ID, text |
| `GemAnswers.ModelIsRead` | pkg/driver/gem/handler.go:265-270 | S1F2 and S1F14: MDLN before SOFTREV |
| `GemAnswers.StateRequests` | pkg/driver/gem/handler.go:319-346 | what S1F13, S1F15 and S1F17 do to both states, and when they are acknowledged with 0 |
| `GemAnswers.AllReportsDeleted` | pkg/driver/gem/handler.go:437-442 | S2F33 with an empty list deletes all reports and links and keeps the enable flags |
| `GemAnswers.EventsAreSwitched` | pkg/driver/gem/handler.go:513-545 | S2F37: the listed events, or all if none is listed, are enabled exactly if CEED says so |
| `GemAnswers.CommandArrives` | pkg/driver/gem/handler.go:550-592 | S2F41: a registered command runs with exactly the names and values sent, in order, and its status comes back; another name gets 1 |
| `GemAnswers.BadCommand` | pkg/driver/gem/handler.go:556-569 | S2F41 with too few elements or no ASCII name gets 3 and runs nothing |
| `GemAnswers.AlarmIsSwitched` | pkg/driver/gem/handler.go:597-624 | S5F3 enables one known alarm exactly if bit 7 of ALED is set |
| `GemAnswers.DenialIsRead` | pkg/driver/gem/handler.go:171-182 | a denied message gets SnF0 without a body under its own number, if it wants a reply |
| `GemAnswers.RepliesAreWanted` | pkg/driver/gem/handler.go:232-246 | a reply is sent only where one is wanted, none for unknown messages and undecodable bodies |
| `GemAnswers.StateIsLastEffect` | pkg/driver/gem/state.go:112-204 | after any operations both states are what the last effective operation on them says |
| `GemAnswers.EffectiveWhen` | pkg/driver/gem/state.go:112-204 | in which states each operation takes effect |
| `GemRuns.LastWriteWins` | pkg/driver/gem/handler.go:384-404 | a constant is set if and only if it is known and unbounded and some pair names it; the last pair wins |
| `GemRuns.WriteThenRead` | pkg/driver/gem/variable.go:60-136 | a write is always acknowledged as accepted; read back over the wire, the constant is the written item if it is known and unbounded, and what it was before otherwise |
| `GemCollections.LastDefinitionWins` | pkg/driver/gem/handler.go:426-472 | after S2F33 each report is what its last definition says, gone if that was empty, and unchanged if there was none |
| `GemCollections.LastLinkWins` | pkg/driver/gem/handler.go:475-510 | after S2F35 a known event has the reports of the last entry for it that names known reports only, else what it had |
| `GemCollections.ListedEventsSwitch` | pkg/driver/gem/handler.go:513-545 | after S2F37 exactly the listed known events have the flag; links stay |
| `GemRuns.AlarmsAreListed` | pkg/driver/gem/handler.go:627-663 | the S5F6 body has one entry for every alarm and the S5F8 body one for every enabled alarm, and no other, whatever the order of the alarm map |
| `Webhook.BatchingIsExact` | pkg/security/webhook.go:64-103 | over every interleaving, stale timers included: handed batches then the current one are the handled events once and in order, batches hold 1 to BatchSize events, and a waiting event has a flush to come |
| `Webhook.QuietMeansDelivered` | pkg/security/webhook.go:91-103 | with no timer armed and no flush waiting, everything was handed over |
| `Webhook.DeliveredByItsTimer` | pkg/security/webhook.go:84-103 | in any continuation in which the current timer is done, every event waiting for it was handed over |
| `Webhook.SingletonsWithoutBatching` | pkg/security/webhook.go:65-68 | without a positive batch size each event is a batch of its own |
| `Webhook.HandoversAreAll` | pkg/security/webhook.go:64-103 | what was handed over is made up of the handovers of the single steps |
| `Webhook.HandledBatchesAreFull` | pkg/security/webhook.go:73-83 | over every run a batch handed over by an event has exactly BatchSize events; a shorter one comes from a flush only |
| `Webhook.FullBlocksWithoutFlush` | pkg/security/webhook.go:73-83 | without a flush the batches are the consecutive blocks of BatchSize events and the rest still waits |
| `Webhook.FullBatchStopsItsTimer` | pkg/security/webhook.go:76-79 | a batch that fills before its timer fires never sees that timer's flush |
| `Webhook.WebhookHandler.Handle` | pkg/security/webhook.go:64-89 | append, hand over a full batch and stop the timer, or arm one |
| `Webhook.WebhookHandler.Flush` | pkg/security/webhook.go:91-103 | hands over whatever waits, whichever timer called |
| `RateLimiter.Limiter.constructor` | pkg/security/ratelimit.go:21-28 | the bucket starts full |
| `RateLimiter.Limiter.Allow` | pkg/security/ratelimit.go:31-51 | refill, cap, take one token or refuse |
| `RateLimiter.TokensAreTightestWindow` | pkg/security/ratelimit.go:36-45 | the tokens on hand are the least any window ending now leaves |
| `RateLimiter.AdmittedIffEveryWindowHasRoom` | pkg/security/ratelimit.go:46-51 | a call is admitted if and only if no window ending with it would hold more than burst + rate * elapsed |
| `RateLimiter.TokensStayInRange` | pkg/security/ratelimit.go:40-51 | tokens stay in [0, burst] |
| `RateLimiter.AdmissionsAreBounded` | pkg/security/ratelimit.go:31-51 | every contiguous stretch of calls admits at most burst + rate * elapsed |
| `RateLimiter.NoRecordAdmitsMore` | pkg/security/ratelimit.go:31-51 | no admission record that keeps all windows admits more up to any call |
| `RateLimiter.SpacedCallsPass` | pkg/security/ratelimit.go:31-51 | calls at least 1/rate apart are never refused when burst is at least 1 |
| `RateLimiter.RefusedThenAllowed` | pkg/security/ratelimit.go:36-51 | after a refusal the next call passes if and only if what is left plus rate times the time since makes a whole token |
| `Ept.EptTracker.constructor` | pkg/driver/gem/ept.go:87-93 | starts non-scheduled with an empty ledger |
| `Ept.EptTracker.SetState` | pkg/driver/gem/ept.go:103-129 | books the elapsed time, logs the change, or does nothing when the state is the same |
| `Ept.EptTracker.RecordUnit` | pkg/driver/gem/ept.go:139-146 | counts a unit and a defect |
| `Ept.EptTracker.Reset` | pkg/driver/gem/ept.go:231-240 | back to a new tracker |
| `Ept.EptTracker.StateDurations` | pkg/driver/gem/ept.go:201-212 | the ledger with the current state booked up to now |
| `Ept.EptTracker.Oee` | pkg/driver/gem/ept.go:150-198 | the four figures of the flushed ledger |
| `Ept.Totals` | pkg/driver/gem/ept.go:162-173 | the loop over the map sums the total, available and productive time in whatever order |
| `Ept.FlushedCountsInstants` | pkg/driver/gem/ept.go:201-212 | for every set of states, the flushed ledger holds the number of clock ticks the log places in it |
| `Ept.RunKeepsInv` | pkg/driver/gem/ept.go:103-129 | every run keeps the log a chain and the ledger in agreement with it |
| `Ept.LedgerIsExact` | pkg/driver/gem/ept.go:103-129 | after any run under a monotone clock: the log is a chain ending in the current state, each state's time is what the log says, and all booked times sum to the time since creation or Reset |
| `Ept.FiguresInRange` | pkg/driver/gem/ept.go:175-197 | ordered totals give four figures in [0, 1] |
| `Ept.OeeIsProductiveShare` | pkg/driver/gem/ept.go:150-198 | after any run the figures lie in [0, 1], and OEE is productive over scheduled instants times quality, 0 when nothing was scheduled |
| `EptHistory.LogIsHistory` | pkg/driver/gem/ept.go:103-129 | the log places every instant in the state the last call until then asked for |
| `EptHistory.CountersAreHistory` | pkg/driver/gem/ept.go:139-146 | units, defects and the start of the ledger are those since the last Reset |
| `EptHistory.FiguresAre` | pkg/driver/gem/ept.go:175-197 | availability, performance and quality each as the ratio it names, over states 0 to 3, 1 and 3, and all but 10; OEE is their product |
| `Carriers.CarrierManager.constructor` | pkg/driver/gem/carrier.go:145-150 | starts empty |
| `Carriers.CarrierManager.DefinePort` | pkg/driver/gem/carrier.go:160-167 | overwrites whatever the port was |
| `Carriers.CarrierManager.SetPortInService` | pkg/driver/gem/carrier.go:170-179 | any known port becomes ready to load |
| `Carriers.CarrierManager.SetPortOutOfService` | pkg/driver/gem/carrier.go:182-194 | only a free port |
| `Carriers.CarrierManager.BindCarrier` | pkg/driver/gem/carrier.go:197-232 | succeeds exactly on a free port that is ready to load |
| `Carriers.CarrierManager.UnbindCarrier` | pkg/driver/gem/carrier.go:235-254 | succeeds exactly from READY_TO_UNLOAD and NOT_ACCESSED and frees the carrier's port |
| `Carriers.CarrierManager.TransitionCarrier` | pkg/driver/gem/carrier.go:257-288 | moves and announces exactly from an expected state |
| `Carriers.CarrierManager.Transit` | pkg/driver/gem/carrier.go:291-313 | the five plain transitions |
| `Carriers.CarrierManager.ReadyToUnload` | pkg/driver/gem/carrier.go:316-330 | both critical sections without interference |
| `Carriers.CarrierManager.MarkPort` | pkg/driver/gem/carrier.go:322-329 | the second section marks the port of whatever carrier now has the ID |
| `Carriers.CarefulKeepsBijection` | pkg/driver/gem/carrier.go:160-254 | careful calls keep carriers and occupied ports in bijection |
| `Carriers.CarelessBreaksBijection` | pkg/driver/gem/carrier.go:197-232 | any other call breaks it at once |
| `Carriers.BijectionIffCareful` | pkg/driver/gem/carrier.go:160-330 | over every interleaving, both halves of ReadyToUnload included, the bijection holds throughout if and only if every call is careful |
| `Carriers.AgreeingIffOrderly` | pkg/driver/gem/carrier.go:160-330 | with ReadyToUnload in its two sections and in every interleaving, ports and carriers agree on READY_TO_UNLOAD wherever no unload is under way, throughout, if and only if every step is orderly |
| `Carriers.AgreeingMeansAligned` | pkg/driver/gem/carrier.go:316-330 | with no unload under way that is agreement at every port |
| `Carriers.SplitUnloadMarksWrongCarrier` | pkg/driver/gem/carrier.go:316-330 | a run in which ReadyToUnload, interrupted, marks the port of a carrier bound anew |
| `CallEffects.MoveDoes` | pkg/driver/gem/carrier.go:291-313 | which transition makes which change, and that it touches nothing else |
| `CallEffects.UnloadDoes` | pkg/driver/gem/carrier.go:316-320 | from which states a carrier becomes READY_TO_UNLOAD |
| `CallEffects.UnbindDoes` | pkg/driver/gem/carrier.go:235-254 | from which states a carrier leaves, and that its port then takes the next |
| `CallEffects.PortsStayInOrder` | pkg/driver/gem/carrier.go:160-330 | over every run of proper calls a port's state follows from what stands on it |
| `CallEffects.ClosedByCall` | pkg/driver/gem/carrier.go:160-194 | which calls close a port |
| `CallEffects.ClosedUntilInService` | pkg/driver/gem/carrier.go:197-211 | over every run a closed port takes no carrier until it is put in service |
| `CallEffects.OpenOnceInService` | pkg/driver/gem/carrier.go:170-232 | then it does |
| `Jobs.JobManager.Create` | pkg/driver/gem/processjob.go:88-106 | a new job is queued, an existing one refused |
| `Jobs.JobManager.Transition` | pkg/driver/gem/processjob.go:108-142 | moves and announces exactly from an expected state |
| `Jobs.JobManager.Remove` | pkg/driver/gem/processjob.go:187-199 | removes exactly a job in a terminal state |
| `Jobs.JobManager.ListActive` | pkg/driver/gem/processjob.go:221-231 | lists each job that is not in a terminal state, once |
| `Jobs.HeardAreEdges` | pkg/driver/gem/controljob.go:103-137 | over any run, every announced change is one some call makes |
| `Jobs.HeardIffEdge` | pkg/driver/gem/controljob.go:103-179 | where all states are reachable, the changes heard over all runs are exactly those the calls make |
| `Jobs.LegalCallsAreHeard` | pkg/driver/gem/processjob.go:108-142 | calls legal one after the other are all announced |
| `ProcessJobs.AtMostSixMoves` | pkg/driver/gem/processjob.go:145-184 | while a process job lives, announced changes climb a rank: at most six |
| `ProcessJobs.SixIsReached` | pkg/driver/gem/processjob.go:145-184 | the bound is tight |
| `ControlJobs.ControlJobsMoveForEver` | pkg/driver/gem/controljob.go:140-179 | control jobs have no such bound |
| `CallEffects.ProcessCallDoes` | pkg/driver/gem/processjob.go:145-184 | which call on a process job makes which change, and when it is refused |
| `CallEffects.ControlCallDoes` | pkg/driver/gem/controljob.go:140-179 | which call on a control job makes which change, and when it is refused |
| `CallEffects.RemovableIffStuck` | pkg/driver/gem/processjob.go:187-199 | a job can be removed if and only if no call can move it any more |
| `CallEffects.ControlRemovableIffStuck` | pkg/driver/gem/controljob.go:182-194 | the same for control jobs |
| `CallEffects.CreateAndRemove` | pkg/driver/gem/processjob.go:88-106 | new jobs are queued, known ones kept, finished ones removed |
| `StateValidator.StateValidator.ValidateTransition` | pkg/validator/state.go:171-198 | records every change, and a violation exactly for one not listed |
| `StateValidator.StateValidator.Reset` | pkg/validator/state.go:62-67 | forgets everything |
| `StateValidator.NoViolationsIff` | pkg/validator/state.go:171-198 | no violation is recorded if and only if every change heard is listed |
| `StateAgreement.CarrierEdgesAreListedBut` | pkg/validator/state.go:158-168 | the manager's changes are the listed ones except cancelling a waiting carrier |
| `StateAgreement.CarrierChangesHeard` | pkg/driver/gem/carrier.go:257-317 | some run of an empty manager announces a carrier change if and only if it is listed and does not cancel a waiting carrier |
| `StateAgreement.CarrierRunsAreAccepted` | pkg/driver/gem/carrier.go:257-317 | over any run the observer records no violation of the carrier manager |
| `StateAgreement.ProcessChangesHeard` | pkg/validator/state.go:202-218 | some run announces a process-job change if and only if it is listed and does not leave STOPPED |
| `StateAgreement.ProcessRunsAreAccepted` | pkg/driver/gem/processjob.go:108-184 | over any run no violation by process jobs |
| `StateAgreement.ControlJobChangesHeard` | pkg/validator/state.go:252-267 | some run announces a control-job change if and only if it is listed |
| `StateAgreement.ControlJobRunsAreAccepted` | pkg/driver/gem/controljob.go:103-179 | over any run no violation by control jobs |
| `StateAgreement.CommRunsAreAccepted` | pkg/validator/state.go:73-82 | over any run no violation by the communication state |
| `StateAgreement.ControlAcceptedIffNeverOnline` | pkg/validator/state.go:115-126 | a run from the start is free of control-state violations if and only if it never goes online |
| `StateAgreement.GoingOnlineIsAViolation` | pkg/validator/state.go:129-154 | establishing communication and going online records exactly one violation |
| `Sml.TokenReadBack` | pkg/simulator/script.go:226-233 | a token reaches up to the next space or brace and no further |
| `SmlNames.NumberWords` | pkg/simulator/script.go:252-271 | the words U1 to F8 stand for their formats |
| `SmlNames.OtherWords` | pkg/simulator/script.go:246-251 | so do A, B and BOOLEAN |
| `SmlNames.ListWords` | pkg/simulator/script.go:244-245 | a list begins with any word that begins with L, and with no other |
| `SmlNames.BooleanWords` | pkg/simulator/script.go:342-353 | true and false in any mixture of cases, and nothing else |
| `SmlNames.ValueTokens` | pkg/simulator/script.go:325-340 | numbers are parsed for the format named, bytes in base 16 after 0x and in base 10 otherwise |
| `SmlNames.Characters` | pkg/simulator/script.go:203-233 | which bytes are blanks, end a token or begin a comment |
| `SmlNames.GapsAreSkipped` | pkg/simulator/script.go:203-217 | blanks, and comments up to the end of their line, make no difference |
| `SmlNames.IllFormedTexts` | pkg/simulator/script.go:235-323 | which texts are which error, and that a list without braces is empty |
| `Sml.ParseItem` | pkg/simulator/script.go:235-275 | halts on every input; success strictly advances |
| `SmlParser.Parser.SkipSpace` | pkg/simulator/script.go:203-217 | moves the position to what the specification leaves |
| `SmlParser.Parser.Peek` | pkg/simulator/script.go:219-224 | the next byte, 0 at the end |
| `SmlParser.Parser.ReadToken` | pkg/simulator/script.go:226-233 | the token and the position behind it |
| `SmlParser.Parser.ScanString` | pkg/simulator/script.go:304-319 | stops at the closing quote, and past the end exactly when there is none |
| `SmlParser.Parser.ParseAscii` | pkg/simulator/script.go:304-323 | reads a quoted string or reports why not |
| `SmlParser.Parser.ParseTokenValue` | pkg/simulator/script.go:325-409 | reads one token and converts it for its format |
| `SmlParser.Parser.ParseList` | pkg/simulator/script.go:277-302 | an empty list without a brace, else its children |
| `SmlParser.Parser.ParseChildren` | pkg/simulator/script.go:285-301 | the loop reads children up to the brace |
| `SmlParser.Parser.ParseItem` | pkg/simulator/script.go:235-275 | agrees with the specification, stays in range, and success moves the position forward |
| `SmlParser.ParseSml` | pkg/simulator/script.go:185-196 | agrees with the specification for every text |
| `SmlTheorems.ParsedFits` | pkg/simulator/script.go:235-302 | texts of at most 0xFFFFFF bytes give items the encoder takes |
| `SmlTheorems.ParsedSurvivesTheWire` | pkg/simulator/script.go:185-196 | such an item is encoded and decoded back, up to empty text slots |
| `SmlTheorems.StringIsQuotable` | pkg/simulator/script.go:304-323 | up to the closing quote there is no bare quote and no backslash that hides it |
| `SmlTheorems.StringReadBack` | pkg/simulator/script.go:304-323 | a string with its escapes in order ends at the first quote after it |
| `SmlTheorems.ParsedIsExpressible` | pkg/simulator/script.go:235-302 | every parsed item is a list of expressible items, a string with its escapes in order, or a single value |
| `SmlTheorems.RenderReadBack` | pkg/simulator/script.go:235-302 | the written form of an expressible item is read back whole, whatever delimited text follows |
| `SmlTheorems.DenotedIffExpressible` | pkg/simulator/script.go:185-196 | some text denotes an item if and only if the item is expressible |
| `SmlTheorems.ListHeadIsRead` | pkg/simulator/script.go:241-245 | at any place in any text a list is read from what follows its first token |
| `SmlCounts.ListCountIsIgnored` | pkg/simulator/script.go:235-302 | two texts that differ, at any depth, only in what follows the L of their lists, denote the same item or give the same error |
| `SmlCounts.OtherCountIsSame` | pkg/simulator/script.go:241-245 | writing another count after an L gives such a text |
| `SmlCounts.WrongCountIsRead` | pkg/simulator/script.go:277-302 | `L:3 {}` is read as the empty list |

## Left out

- TCP, TLS, listeners, dialing, the IP allow-list, wall-clock timers and logging: timeouts, cancelled contexts and link loss are steps that may happen at any time.
- The T7 timer, the session time limit and `Close`: their effect on the state is one step, StoreDisconnected, that is always possible.
- The read loop's rate limiter inside a session: whether a message is dropped by it is a parameter of the Receive step.
- `HsmsMessage.MarshalBinary`: requires that the wrapped buffer size holds the 14 fixed bytes, without which the code indexes outside its buffer.
- A body longer than what `UnmarshalBinary` announces, read into a message that already has data: only the empty receiver that `readMessage` uses is covered by the round trip.
- `HsmsSessionObject.Session.HandleMessage`: is one uninterrupted call; interleavings with other goroutines are covered by the step machine.
- A passive application that posts a Select.rsp of its own making: such moves are not among the possible ones of the two-session system.
- Taking a system ID and entering it into the pending map is one step, Register, where the code does the two one after the other.
- nil items and nil children of lists, which only hand-built trees contain; `Item.String`, `Item.Validate`, `ToInt64s` and `ToFloat64s`.
- The wording of errors and findings; paths of findings are index lists instead of strings.
- Direction and wait-bit metadata of message schemas, `Register`, `All` and `Count` of the registry: the default registry is a function.
- `GemHandlerObject.Handler.HandleMessage`: requires of an admitted data message that every index and child access its handler reaches is in range, because the code does not check; custom handlers, the auditor and event or alarm sending are not modelled.
- Encoding a list of nil items, which S1F3 and S2F13 build for a body that is neither a list nor empty: such a request may only come without the wait bit.
- Dynamic variable providers and command handlers: a variable has a value, a command answers a status chosen by the environment.
- Map iteration order: a choice of the environment, over which results are proved for all orders.
- `Carriers.CarrierManager.BindCarrier`: does not model slot map, lot, usage and timestamps; records handed out by `GetCarrier` are not modelled either.
- `Jobs.JobManager.Create`: does not model recipe, carrier, slots, parameters, priority and creation time, which no operation looks at.
- `Jobs.JobManager.Transition`: does not model timestamps; one generic manager stands for the two managers, which differ in states and calls only.
- `StateValidator.StateValidator.ValidateTransition`: one observer per machine; timestamps, names and message texts are not modelled.
- `RateLimiter.Limiter.Allow`: tokens are real numbers, float64 rounding is not modelled.
- `Ept.EptTracker.Oee`: the figures are real numbers and durations unbounded integers, float64 rounding and int64 overflow are not modelled.
- `webhookHandler.send` with its retries, syslog, and the order in which concurrent sends reach the network.
- `strings.TrimSpace` and `strconv` in the SML parser: the text is taken as trimmed, and number parsing is a function parameter whose results fit the requested width.
- REST, gRPC, MQTT, OPC-UA, Modbus, the studio server and its pages, encryption, tokens, anomaly detection, substrate tracking, timing and coverage reports: plumbing, or operations whose contracts would add only easy members.
