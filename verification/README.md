# The path from phone bytes to messages, and the state machines around it

A Dafny model of the head unit's session layer, with proofs. It follows the code, branch by branch, and
states what the code and its documents promise: that messages survive encryption, fragmentation, queueing,
read-ahead and reassembly in order; that a session ends, tells its observer once and never goes back; that
plaintext stops where it should. Nothing was executed: all claims are Dafny proofs about the model.

Check it with `dafny verify dfyconfig.toml`.

| file | what it models |
|---|---|
| `Bytes.dfy`, `ProtocolConstants.dfy` | bytes, the flags byte |
| `Framer.dfy`, `WireShape.dfy` | frame parser and fragmenting printer, and the wire format byte by byte |
| `Crypto.dfy` | the cipher from outside, and the laws assumed of it |
| `Messages.dfy`, `Channels.dfy`, `EndToEnd.dfy` | outbound encoder, inbound assembler, the round trip |
| `BufferedTransport.dfy`, `Interleavings.dfy`, `QueueLimit.dfy`, `ReadOutcomes.dfy` | the read-ahead transport, as methods and as interleaved lock regions, when its queue keeps to its limit, and what each read comes to |
| `WriteQueue.dfy`, `Session.dfy`, `SessionSafety.dfy`, `SingleAuth.dfy`, `Goodbye.dfy`, `SessionMoves.dfy` | the write queue, one session, what all its runs keep, how a goodbye ends, where each event takes a session and what the observer is told |
| `Offered.dfy`, `HandshakeHeard.dfy` | what a session says: the frames it offers, and the handshake as the phone hears it |
| `ByteSession.dfy`, `SessionPath.dfy` | a session fed with bytes: what its services hear of the phone |
| `MessagePath.dfy` | encoder, write queue, link, read-ahead transport and assembler together |
| `Heartbeat.dfy`, `Pings.dfy` | the ping watchdog of the control service, and its pings and closes told from the events alone |
| `Varints.dfy`, `FieldReads.dfy`, `FieldParserEnds.dfy`, `Rfcomm.dfy` | the hand-written field codec and framing of the wireless setup |
| `Foreground.dfy`, `ForegroundMoves.dfy` | the one-foreground-session policy under failing engine calls, and what each operation does to each session |
| `AudioCredits.dfy`, `AudioPlay.dfy` | credit-based flow control of an audio channel, and what is played and answered |

## How it is modelled

Code that changes state is a class whose methods are proved equal to functions on a value that holds the
whole state (`View`, `State`); whole runs are lists of events over those functions. A disabled event
changes nothing, so that every list of events is a run.

- The cipher is abstract. `Crypto.Laws` asks that decryption works on a stream cut anywhere and that the
  decryptor undoes the encryptor; TLS records need not line up with fragments.
  `EndToEnd.RecordCipherMeetsLaws` shows that the laws can be met by a cipher of records that are longer
  than a fragment. Decryption in the original is synchronous, and so it is here; `react` stands for what a
  delivered message does to the crypto state before the next fragment is read.
- Callbacks become returned lists. In `Sessions` what the crypto library returns and what services send
  comes with the event that causes it, as an arbitrary value. In `ByteSession` the library and the services
  are functions, and the events of reading are what the assembler reports of the bytes.
- A destination buffer is modelled by its size, and the bytes copied to it are the data of the completion.
  A moved-from handler is empty. The scratch buffer of the underlying read has no region of its own: one
  read at most is in flight, which is proved.
- Each handler posted to a session is one event; a state timeout may come at any moment, cancelled or not.
  Starting happens once and first.
- Java's `int` and `long` keep their widths; a `long` is represented by its unsigned value.
- The calls to the engine in `Foreground` follow a script that says which of them fail.

## Where the code and its documents, or expectations, differ

- A second `stop` in Disconnecting goes to Error, so an answered goodbye ends in Error
  (`Goodbye.AnsweredGoodbyeFails`, a run from the start). It ends in Disconnected exactly when the timer fires
  before any stop, failed read or write, garbled fragment or failed encryption (`Goodbye.GoodbyeEndsExactly`).
- Services are told of the end in Error and never in Disconnected (`SessionSafety.SessionIsSafe`).
- Messages of the feed that is being handled reach services even after an error
  (`SessionSafety.ServicesSeeEverything`).
- The handshake may be completed in VersionExchange, without any VERSION_RESPONSE, since ENCAPSULATED_SSL is
  accepted there (`SessionSafety.RunsExactly`).
- The handshake's last output is sent after the crypto library is established. If the completing step has
  output, an encrypted frame precedes AUTH_COMPLETE, or the session leaves Error again. The cut-over holds
  exactly when that step has no output, as with a TLS 1.2 client in a full handshake (section 7.3 of RFC
  5246): `SessionSafety.CompletionMustBeQuiet`.
- The printer sets the FragInfo bits only when it fragments: `Framing.EncodeThenParse` says when it inverts.
- The read-ahead queue can hold 33 chunks, one more than its limit, when a leftover comes back to a full
  queue (`QueueLimit.BoundIsTight`). It keeps to 32 exactly when chunks fit in the readers' buffers
  (`QueueLimit.LimitHoldsExactly`); with the sizes of the program they do.
- A length over 65535 is cut by the RFCOMM framing, a field number over 29 bits by the tag:
  `Rfcomm.PacketRoundTrip`, `Varints.FieldNumberSurvives`.
- The field parser does not end on some bytes (`FieldParserEnds.BackwardsNeverEnds`). It ends exactly when its
  cursor does not come back to an offset, which shows within as many rounds as there are bytes
  (`FieldParserEnds.ParserEndsExactly`).
- The focus callback does not check the session it names, and a run can end with two sessions in the
  foreground (`Foreground.SecondPhoneTakesFocus`). The rule holds all along a run exactly when no focus event
  names a session while another one is in the foreground (`Foreground.RuleHoldsExactly`).

## Model

| member | source | states |
|---|---|---|
| SessionPath.SessionHearsThePhone | core/src/session/Session.cpp:257-337 | the session on bytes: a phone handshakes in the clear and then sends encrypted messages; for any part of the bytes, cut anywhere, and anything else happening in between, an established session has given its services a prefix of the messages after the cut-over; all of them once all bytes are read, unless it gave up in the handshake, which no bytes make it do |
| SessionPath.TapeIsComplete | core/src/session/InboundMessageAssembler.cpp:14-84 | the crypto library is switched by a message in the middle of the stream, and all that follows is decrypted in order |
| SessionPath.RecordLibraryLaws | impl/common/crypto/OpenSslCryptoStrategy.cpp:114-203 | the laws assumed of the library are met by one with records that do not align with fragments |
| SessionPath.RecordHandshake | core/src/session/HandshakeCoordinator.cpp:19-69 | and so is the assumption that the handshake succeeds, with quiet steps |
| ByteSession.IsSessionRun | core/src/session/Session.cpp:257-276 | a session fed with bytes does what the state machine does on the assembler's reports of those bytes |
| ByteSession.BytesKeepSessionSafe | core/src/session/Session.cpp:257-464 | safety and cut-over hold whatever bytes are read and however they are cut |
| MessagePath.MessagesArriveInOrder | core/src/session/OutboundMessageEncoder.cpp:40-78 | whole path: for any messages, any run of the write queue without drops, any part of the bytes it has accepted, a write under way included, and any interleaving of the transport without loss, the messages delivered are a prefix of those sent, and all of them once all bytes are there |
| EndToEnd.Delivery | core/src/session/InboundMessageAssembler.cpp:14-84 | any list of messages, clear or encrypted as a whole and decrypted fragment by fragment, is delivered exactly and in order, however the byte stream is cut, with no decryption error and nothing left over |
| EndToEnd.DeliveredSoFar | core/src/session/InboundMessageAssembler.cpp:14-84 | with only part of the bytes arrived, in any chunks, the delivered messages are a prefix of those sent |
| EndToEnd.AcceptFrame | core/src/session/InboundMessageAssembler.cpp:33-84 | the fragments of one frame yield its one message, leave its channel empty and all other channels alone, with the crypto state of one whole decryption |
| EndToEnd.ReceiveIsOneRun | core/src/session/InboundMessageAssembler.cpp:14-31 | feeding a stream in pieces, reactions to messages in between, equals one run over all its fragments |
| EndToEnd.RecordCipherMeetsLaws | impl/common/crypto/OpenSslCryptoStrategy.cpp:152-203 | the laws assumed of the cipher are met by one with records that do not align with fragments |
| Channels.ChannelIndependence | core/src/session/InboundMessageAssembler.cpp:18-30 | for any interleaving of fragments, malformed flags included, a channel's messages and buffer are those of a run on its own fragments |
| Channels.MessageSinceStart | core/src/session/InboundMessageAssembler.cpp:33-84 | the message a Last completes is the concatenation of its channel's plaintext since the last First or clear |
| Channels.PendingSinceStart | core/src/session/InboundMessageAssembler.cpp:33-65 | the buffer a channel keeps is the plaintext since the last First or clear |
| Channels.ErrorsExactly | core/src/session/InboundMessageAssembler.cpp:40-56 | each fragment that does not decrypt is reported once, and nothing else is |
| Messages.AcceptConcat | core/src/session/InboundMessageAssembler.cpp:14-31 | a run over fragments may stop anywhere and go on from the state reached |
| Messages.InboundMessageAssembler.Feed | core/src/session/InboundMessageAssembler.cpp:14-31 | the object's messages, errors and new state are those of the specified run over the parsed fragments |
| Messages.InboundMessageAssembler.OnFragment | core/src/session/InboundMessageAssembler.cpp:19-30 | one fragment's effect on the per-channel buffers and the crypto state |
| Messages.InboundMessageAssembler.AppendFragmentPayload | core/src/session/InboundMessageAssembler.cpp:33-65 | First clears; a failed decryption clears and reports; the rest appends |
| Messages.InboundMessageAssembler.ExtractCompleteMessage | core/src/session/InboundMessageAssembler.cpp:67-84 | the buffer is empty afterwards, and less than two bytes are no message |
| Messages.OutboundMessageEncoder.SendMessage | core/src/session/OutboundMessageEncoder.cpp:60-71 | queues the wire frames of the whole encrypted message once established, of the clear one before; nothing on a failed encryption |
| Messages.OutboundMessageEncoder.EncryptAndQueueFrame | core/src/session/OutboundMessageEncoder.cpp:40-58 | the ciphertext, not the plaintext, is cut into frames |
| Messages.OutboundMessageEncoder.QueueEncodedFrame | core/src/session/OutboundMessageEncoder.cpp:28-38 | the frames of an unencrypted message with its computed flags |
| Messages.OutboundMessageEncoder.SendPlaintextControlMessage | core/src/session/OutboundMessageEncoder.cpp:73-78 | control messages in the clear whatever the crypto state is |
| Messages.OutboundMessageEncoder.BuildMessagePayload | core/src/session/OutboundMessageEncoder.cpp:17-26 | the message type in front of the payload, as the receiver reads it |
| Framing.ParseIsTheCut | core/src/session/Framer.cpp:23-66 | the parser's result is the only way to cut a buffer into whole frames and a rest without one |
| Framing.ParseConcat | core/src/session/Framer.cpp:23-66 | parsing may stop anywhere and go on with the rest |
| Framing.ChunkingDoesNotMatter | core/src/session/Framer.cpp:23-30 | any sequence of feeds gives the fragments and the rest of one feed of the concatenation |
| Framing.RestIsBounded | core/src/session/Framer.cpp:32-50 | what waits in the buffer is 65542 bytes at most |
| Framing.Framer.Feed | core/src/session/Framer.cpp:23-30 | the loop ends with exactly the parse of the old buffer and the data |
| Framing.Framer.TryParseFragment | core/src/session/Framer.cpp:32-66 | takes the first whole frame off the buffer, or leaves the buffer alone |
| Framing.Framer.Encode | core/src/session/Framer.cpp:70-126 | the loop's frames are the ones given by position |
| Framing.EncodeThenParse | core/src/session/Framer.cpp:70-126 | printing then parsing gives Unfragmented or First Continuation* Last with channel and encrypted bit kept, if and only if the flags have both FragInfo bits or the payload needs fragments |
| Framing.FrameCount | core/src/session/Framer.cpp:74-123 | as many frames as it takes: one for an empty payload, else the round-up of the size over 16384 |
| Framing.Piece | core/src/session/Framer.cpp:85-88 | every piece but the last is full |
| Framing.FragmentsCarryPayload | core/src/session/Framer.cpp:85-121 | the payloads of the fragments concatenate to the original |
| Framing.Overhead | core/src/session/Framer.cpp:104-117 | four bytes a frame, and four more once if fragmented |
| Framing.WiresKeepEncryptedBit | core/src/session/Framer.cpp:77-107 | every frame of a message shows whether the message is encrypted |
| WireShape.SentHeaders | core/src/session/OutboundMessageEncoder.cpp:28-78 | every wire frame of a sent message shows the message's channel, whether it was encrypted, and control-on-media exactly for types 1 to 19 off the control channel; no other bit |
| WireShape.PiecesAreFull | core/src/session/Framer.cpp:74-109 | a payload is cut exactly above 16384 bytes; every frame tells its own length, 16384 for all but the last |
| WireShape.FirstTellsSize | core/src/session/Framer.cpp:110-116 | the first of several frames tells the size of the whole, in 32 bits |
| WireShape.MessageInExactly | core/src/session/InboundMessageAssembler.cpp:67-84 | a finished buffer is a message if and only if it is what the sender makes of that message |
| ProtocolConstants.FlagMasks | core/src/session/Framer.cpp:37-39 | the arithmetic reading of the flags is the masks of the source |
| ProtocolConstants.FlagReplace | core/src/session/Framer.cpp:107-107 | so is the replacement of the FragInfo bits |
| ProtocolConstants.ComputedFlags | core/include/aauto/utils/ProtocolConstants.hpp:175-186 | a computed flags byte has both FragInfo bits, the encrypted bit as asked, and control-on-media for types 1 to 19 on other channels |
| Interleavings.ByteFifo | core/src/transport/BufferedTransport.cpp:31-199 | in every interleaving, delivered, in hand and queued bytes are in order the received ones without the lost; with none lost, all of them |
| Interleavings.DropIsOldest | core/src/transport/BufferedTransport.cpp:155-163 | a drop takes the oldest entry of a full queue, and its bytes are all that is lost |
| Interleavings.ReaderAccounting | core/src/transport/BufferedTransport.cpp:31-88 | calls are completions plus the one handler waiting somewhere; a parked handler means empty queue and no stored error; 33 chunks at most |
| Interleavings.LoopAccounting | core/src/transport/BufferedTransport.cpp:100-169 | one underlying read at most; the loop goes on while started, open and error-free; an error is told at most once and not before the bytes received earlier |
| ReadOutcomes.CallExactly | core/src/transport/BufferedTransport.cpp:31-63 | in every reachable state a read waits if and only if the transport is open without chunk or error; else it is aborted, or gets what fits of the oldest chunk, or the stored error |
| ReadOutcomes.CallLeaves | core/src/transport/BufferedTransport.cpp:42-57 | what did not fit comes next, and a stored error is told once |
| ReadOutcomes.WaitEndsWithData | core/src/transport/BufferedTransport.cpp:147-153 | the next data completes a waiting read with what fits and keeps the rest |
| ReadOutcomes.WaitEndsWithError | core/src/transport/BufferedTransport.cpp:123-133 | the next error completes it with that error |
| ReadOutcomes.WaitEndsWithClose | core/src/transport/BufferedTransport.cpp:72-88 | a close aborts it |
| ReadOutcomes.WaitGoesOn | core/src/transport/BufferedTransport.cpp:60-62 | nothing else ends the wait |
| ReadOutcomes.ErrorIsStored | core/src/transport/BufferedTransport.cpp:135-137 | an error nobody waits for is kept as it is, behind the chunks |
| ReadOutcomes.ChunkIsStored | core/src/transport/BufferedTransport.cpp:154-163 | a chunk nobody waits for is put last; the oldest goes exactly if 32 are waiting |
| ReadOutcomes.ClosedForGood | core/src/transport/BufferedTransport.cpp:34-38 | after a close no read is issued, nothing is accepted, and every call is aborted |
| QueueLimit.LimitHoldsExactly | core/src/transport/BufferedTransport.cpp:182-194 | with buffers and chunks of given sizes the queue has 32 chunks at most in every interleaving if and only if the chunks fit |
| QueueLimit.BoundIsTight | core/src/transport/BufferedTransport.cpp:182-194 | for every buffer size, a run with chunks one byte longer in which the queue holds 33 |
| QueueLimit.SessionKeepsLimit | core/include/aauto/transport/BufferedTransport.hpp:49-51 | with the sizes of the program the limit holds |
| Interleavings.AtomicOperations | core/src/transport/BufferedTransport.cpp:144-168 | with operations that are not interrupted the queue holds 32 at most and exactly one underlying read is outstanding while open and error-free |
| Interleavings.MethodsAreRegions | core/src/transport/BufferedTransport.cpp:31-199 | a method call that is not interrupted is its lock regions in a row |
| Interleavings.CrossOutKept | core/src/transport/BufferedTransport.cpp:156-160 | the history's deletion of lost bytes removes exactly those |
| Interleavings.InvRun | core/src/transport/BufferedTransport.cpp:20-199 | every region keeps order, bounds, stream and error accounting |
| ReadAhead.BufferedTransport.Start | core/src/transport/BufferedTransport.cpp:20-27 | starts the loop once, unless closed |
| ReadAhead.BufferedTransport.AsyncRead | core/src/transport/BufferedTransport.cpp:31-63 | aborted when closed, else the oldest chunk, else the stored error, else parked |
| ReadAhead.BufferedTransport.Close | core/src/transport/BufferedTransport.cpp:72-88 | once: clears the queue, closes below, aborts the parked handler |
| ReadAhead.BufferedTransport.IssueUnderlyingRead | core/src/transport/BufferedTransport.cpp:100-118 | reads on unless closed |
| ReadAhead.BufferedTransport.OnUnderlyingRead | core/src/transport/BufferedTransport.cpp:120-169 | to the parked handler, or to the queue with the oldest dropped at 32; an error to the handler or stored |
| ReadAhead.BufferedTransport.InvokeHandler | core/src/transport/BufferedTransport.cpp:171-199 | copies what fits and puts the leftover back to the front |
| WriteQueue.SingleWriter | core/src/session/Session.cpp:204-243 | every run of the queue: a write is issued only when all issued before are done, it is the front, idle means empty, 256 at most, written is a prefix of accepted, offered is accepted plus dropped, none issued after a failure |
| WriteQueue.RunOrdered | core/src/session/Session.cpp:204-243 | the queue's invariant over all runs, and written frames only grow |
| WriteQueue.OfferExactly | core/src/session/Session.cpp:204-214 | along every run a frame is dropped if and only if 256 are waiting, and accepted last otherwise |
| WriteQueue.DoneExactly | core/src/session/Session.cpp:231-243 | a finished write was the oldest frame's and the next starts; after a failure none does |
| WriteQueue.SmallRunsDropNothing | core/src/session/Session.cpp:204-214 | a run that offers 256 frames or fewer drops none |
| SessionSafety.SessionWrites | core/src/session/Session.cpp:204-243 | the same for everything a session does with its queue, whatever the handshake steps are |
| SessionSafety.SessionIsSafe | core/src/session/Session.cpp:341-401 | the rank of the state never falls, terminal states stay with the transport closed, and the observer hears one error, and the services of the end once, exactly if the run is in Error; the state shown last is the state it is in |
| SessionSafety.EncryptionCutOver | core/src/session/Session.cpp:444-459 | the offered frames are a clear prefix that ends in AUTH_COMPLETE, then frames with the encrypted bit |
| SingleAuth.OnlyAuthComplete | core/src/session/Session.cpp:444-459 | the AUTH_COMPLETE at the cut-over is the only one, when no service sends one of its own |
| SessionSafety.NeverStuck | core/src/session/Session.cpp:374-426 | the timer is armed exactly in the waiting states, where its firing is final; elsewhere a late firing changes nothing |
| SessionMoves.FirstTroubleIsTold | core/src/session/Session.cpp:362-401 | a run ends in Error if and only if it meets trouble before its end, and the observer is told the cause of the first trouble, alone |
| SessionMoves.EventTells | core/src/session/Session.cpp:87-464 | each event: Error exactly with trouble, its cause told, and otherwise the next state of the protocol |
| SessionMoves.ItemTells | core/src/session/Session.cpp:278-337 | each message of a feed, and each garbled fragment |
| SessionMoves.ReadsOn | core/src/session/Session.cpp:247-276 | a read that brought data is followed by the next unless the session has ended; an aborted or failed one is not |
| SessionMoves.KeepsReading | core/src/session/Session.cpp:247-276 | along every run without an aborted read, a session that has not ended is reading |
| Offered.RunIsSaid | core/src/session/OutboundMessageEncoder.cpp:17-78 | the frames offered in any run parse to exactly the messages the run has to send, whole and in order |
| Offered.StepIsHeard | core/src/session/HandshakeCoordinator.cpp:60-64 | a receiver without a key hears the output of a handshake step, and nothing else |
| HandshakeHeard.HandshakeIsHeard | core/src/session/HandshakeCoordinator.cpp:19-69 | up to the cut-over the phone hears VERSION_REQUEST, each step's output in order, and AUTH_COMPLETE, in every run that has not given up and in which no service speaks unasked |
| HandshakeHeard.ClearPartIsHeard | core/src/session/Session.cpp:406-459 | the frames up to the cut-over are exactly what was said in the clear, in any run |
| SessionSafety.CompletionMustBeQuiet | core/src/session/HandshakeCoordinator.cpp:52-69 | cut-over and safety survive the completing handshake step if and only if it has no output |
| SessionSafety.LoudStepLeaks | core/src/session/HandshakeCoordinator.cpp:60-68 | with output that can be encrypted, an encrypted frame precedes AUTH_COMPLETE |
| SessionSafety.LoudStepRevives | core/src/session/HandshakeCoordinator.cpp:60-68 | with output that cannot be encrypted, the session is in Running after an error was told |
| Goodbye.GoodbyeEndsExactly | core/src/session/Session.cpp:87-98 | a goodbye ends in Disconnected if and only if the timer fires before any stop, failed read or write, garbled fragment or failed encryption, and in Error if and only if one of those comes first |
| Goodbye.GoodbyeOfARun | core/src/session/Session.cpp:374-426 | so does the goodbye of any run from the start |
| Goodbye.GoodbyeStep | core/src/session/Session.cpp:231-426 | each event of a goodbye: only the timer leads to Disconnected, only harm to Error |
| Goodbye.AnsweredGoodbyeFails | core/src/service/ControlService.cpp:172-177 | handshake, stop, BYEBYE_RESPONSE and the stop it causes: a run from the start that ends in Error, where the timer would have ended it in Disconnected |
| SessionSafety.RunsExactly | core/src/session/Session.cpp:278-299 | which message makes a session run, the same in VersionExchange as in SslHandshake |
| SessionSafety.ServicesSeeEverything | core/src/session/Session.cpp:324-337 | after the handshake every message of a feed reaches the service of its channel, if it has one, in order, in Error as well |
| SessionSafety.AuthWire | core/src/session/Session.cpp:447-453 | the bytes of AUTH_COMPLETE on the wire, always clear |
| SessionSafety.RunKeeps | core/src/session/Session.cpp:231-464 | every event keeps cut-over and safety and only moves forward |
| Sessions.Session.Start | core/src/session/Session.cpp:406-411 | transition, timer, read, then the version request |
| Sessions.Session.StopNow | core/src/session/Session.cpp:87-98 | nothing when terminal, goodbye from Running, an error from anywhere else |
| Sessions.Session.TransitionToState | core/src/session/Session.cpp:341-350 | sets the state, cancels the timer, tells the observer |
| Sessions.Session.Fail | core/src/session/Session.cpp:352-372 | once: Error, transport closed, services told, observer told |
| Sessions.Session.OnTimeout | core/src/session/Session.cpp:384-401 | by state: two errors, one disconnect, or nothing |
| Sessions.Session.Disconnect | core/src/session/Session.cpp:413-426 | done at once without a control service, else the goodbye is sent and awaited |
| Sessions.Session.FinishDisconnect | core/src/session/Session.cpp:461-464 | Disconnected with the transport closed |
| Sessions.Session.EnqueueWrite | core/src/session/Session.cpp:204-214 | drops at 256, else queues and starts an idle writer |
| Sessions.Session.DoWriteNext | core/src/session/Session.cpp:216-229 | writes the front, or goes idle |
| Sessions.Session.OnWriteDone | core/src/session/Session.cpp:231-243 | pops on success; an abort stops quietly, a failure with an error |
| Sessions.Session.BeginRead | core/src/session/Session.cpp:247-255 | no read in a terminal state |
| Sessions.Session.OnReadDone | core/src/session/Session.cpp:257-276 | dispatches all messages of the feed, then reads on |
| Sessions.Session.DispatchDecrypted | core/src/session/Session.cpp:278-337 | during the handshake by type, afterwards to the channel's service, or dropped if there is none |
| Sessions.Session.VersionResponse | core/src/session/HandshakeCoordinator.cpp:19-43 | refused with six bytes and a status, else the first handshake step |
| Sessions.Session.HandshakeStep | core/src/session/HandshakeCoordinator.cpp:52-69 | output first, then completion |
| Sessions.Session.SslComplete | core/src/session/Session.cpp:444-459 | AUTH_COMPLETE in the clear, then Running |
| Sessions.Session.SendRequestNow | core/src/session/Session.cpp:176-194 | the encoder's frames go to the queue; a failed encryption is an error |
| Heartbeat.ClosesInTime | core/src/service/ControlService.cpp:270-292 | in every run, an open channel that is not closing heard a pong less than 15001 ms plus the timer's lateness ago |
| Heartbeat.NeverClosesEarly | core/src/service/ControlService.cpp:276-314 | a timeout finds the last pong or open at least 10001 ms old, and the callback runs at most once an open |
| Heartbeat.TimeoutExactly | core/src/service/ControlService.cpp:283-289 | the check fires exactly from 10001 ms on |
| Heartbeat.AnsweringPhoneStays | core/src/service/ControlService.cpp:158-162 | a phone that answers each ping before the next check is never given up, with timers late by 5 s at most |
| Heartbeat.AnsweredSinceOpen | core/src/service/ControlService.cpp:194-201 | the same in every run of the service, from any opening of the channel on |
| Pings.PingsAreFirings | core/src/service/ControlService.cpp:276-281 | for any events, one ping for each firing since the channel was opened and before it was closed, and no other |
| Pings.GivesUpExactly | core/src/service/ControlService.cpp:164-177 | a session is given up exactly by a goodbye, or by a firing on an open channel with the phone unheard of for 10001 ms |
| Pings.GivenUpOnce | core/src/service/ControlService.cpp:305-314 | one callback each time, and given up until the next opening |
| Pings.ChecksAreSpaced | core/src/service/ControlService.cpp:270-274 | the next check comes 5 s after an opening or a check, and at most the timer's lateness after that |
| Pings.HealthyPhoneStays | core/src/service/ControlService.cpp:158-162 | a phone whose every pong answers a ping it was sent, each before the next check, keeps its session |
| Pings.HealthyRun | core/src/service/ControlService.cpp:276-292 | such a phone exists, for as many checks as one likes |
| Heartbeat.ControlService.OnHeartbeatTimer | core/src/service/ControlService.cpp:276-292 | the handler, with aborted and stale firings |
| Heartbeat.ControlService.OnChannelOpen | core/src/service/ControlService.cpp:194-201 | an open counts as a pong and arms the timer |
| Heartbeat.ControlService.TriggerSessionClose | core/src/service/ControlService.cpp:305-314 | at most one callback an open |
| Varints.VarintRoundTrip | app/android/src/com/aauto/app/wireless/BluetoothWirelessManager.java:333-372 | reading undoes writing for every 64-bit value at any offset, and stops right behind it |
| Varints.TenBytes | app/android/src/com/aauto/app/wireless/BluetoothWirelessManager.java:333-339 | ten bytes at most |
| Varints.WriteVarInt | app/android/src/com/aauto/app/wireless/BluetoothWirelessManager.java:333-339 | the loop appends the value's base-128 digits |
| Varints.ReadVarint | app/android/src/com/aauto/app/wireless/BluetoothWirelessManager.java:362-372 | the loop, on any bytes, with shifts modulo 64 |
| Varints.WriteProtoString | app/android/src/com/aauto/app/wireless/BluetoothWirelessManager.java:319-325 | tag, length, text |
| Varints.WriteProtoVarint | app/android/src/com/aauto/app/wireless/BluetoothWirelessManager.java:327-331 | tag, value |
| Varints.ParseProtoVarint | app/android/src/com/aauto/app/wireless/BluetoothWirelessManager.java:343-360 | the loop on any bytes, with its overflows, as far as the given rounds go |
| Varints.ParseFindsFirst | app/android/src/com/aauto/app/wireless/BluetoothWirelessManager.java:319-360 | on any written fields the parser returns the first hit, or 0 if none |
| Varints.FirstHitIsFirst | app/android/src/com/aauto/app/wireless/BluetoothWirelessManager.java:343-360 | the first hit is the first varint field with the wanted number, for numbers of 29 bits |
| Varints.FieldNumberSurvives | app/android/src/com/aauto/app/wireless/BluetoothWirelessManager.java:322-348 | a field number survives the tag if and only if it has 29 bits |
| FieldReads.VarintLengthExactly | app/android/src/com/aauto/app/wireless/BluetoothWirelessManager.java:333-339 | seven bits a byte and no byte more than needed |
| FieldReads.CutVarintReads | app/android/src/com/aauto/app/wireless/BluetoothWirelessManager.java:362-372 | a varint cut off at the end of the data reads as the bits that are there |
| FieldReads.TextReadsBack | app/android/src/com/aauto/app/wireless/BluetoothWirelessManager.java:319-325 | a text field is its tag, its length and its text |
| FieldReads.IntReadsBack | app/android/src/com/aauto/app/wireless/BluetoothWirelessManager.java:327-331 | a varint field is its tag and its value |
| FieldReads.HitBeforeAnything | app/android/src/com/aauto/app/wireless/BluetoothWirelessManager.java:343-360 | a hit is found whatever bytes follow the fields |
| FieldReads.UnknownFieldEnds | app/android/src/com/aauto/app/wireless/BluetoothWirelessManager.java:355-359 | a field of another wire type ends the parsing, with 0 unless there was a hit before |
| FieldParserEnds.ParserEndsExactly | app/android/src/com/aauto/app/wireless/BluetoothWirelessManager.java:343-360 | on any bytes the parser ends if and only if its cursor never comes back to an offset, and then within a round a byte and one more |
| FieldParserEnds.ParseEnds | app/android/src/com/aauto/app/wireless/BluetoothWirelessManager.java:352-354 | it ends when no text length it meets on its way is read as negative |
| FieldParserEnds.BackwardsNeverEnds | app/android/src/com/aauto/app/wireless/BluetoothWirelessManager.java:352-354 | six bytes, a text field with a negative length, on which it does not end |
| Rfcomm.PacketRoundTrip | app/android/src/com/aauto/app/wireless/BluetoothWirelessManager.java:267-285 | a packet is read back with the stream behind it untouched if and only if its payload is 65535 bytes at most |
| Rfcomm.DecodeExactly | app/android/src/com/aauto/app/wireless/BluetoothWirelessManager.java:279-285 | a stream decodes to a packet if and only if it starts with what is written for it |
| Rfcomm.PacketsRoundTrip | app/android/src/com/aauto/app/wireless/BluetoothWirelessManager.java:267-285 | any list of such packets is read back in order |
| Rfcomm.SendMessage | app/android/src/com/aauto/app/wireless/BluetoothWirelessManager.java:267-277 | writes the packet's bytes and nothing else |
| Rfcomm.ReadExact | app/android/src/com/aauto/app/wireless/BluetoothWirelessManager.java:287-296 | the next n bytes however the stream splits its reads, or failure at its end |
| Rfcomm.ReadMessage | app/android/src/com/aauto/app/wireless/BluetoothWirelessManager.java:279-285 | decodes the next packet, or fails, over short reads |
| Foreground.OneForegroundSession | app/android/src/com/aauto/app/AaService.java:504-602 | over all runs, whichever engine calls fail, at most one session is ACTIVE or BACKGROUND and no phone has two sessions, if no focus event names a session while another is in the foreground |
| Foreground.RuleHoldsExactly | app/android/src/com/aauto/app/AaService.java:217-236 | the rule holds all along a run if and only if that is so |
| Foreground.SecondPhoneTakesFocus | app/android/src/com/aauto/app/AaService.java:217-236 | a run from the start that ends with two ACTIVE sessions |
| Foreground.ForegroundFocusIsExpected | app/android/src/com/aauto/app/SessionManager.java:94-113 | focus events for sessions in the foreground are among those that keep the rule |
| Foreground.PromoteKeeps | app/android/src/com/aauto/app/AaService.java:511-567 | a promotion leaves exactly the named session in the foreground, or, failing anywhere, brings none there |
| Foreground.DemoteKeeps | app/android/src/com/aauto/app/AaService.java:590-602 | demotion keeps the rule wherever it stops, and clears all others when done |
| Foreground.LoseSurfaceKeeps | app/android/src/com/aauto/app/AaService.java:647-662 | so does the loss of the surface |
| ForegroundMoves.PromoteExactly | app/android/src/com/aauto/app/AaService.java:511-602 | which calls decide about the demotion and the promotion, and what each leaves of every session |
| ForegroundMoves.ActivateExactly | app/android/src/com/aauto/app/AaService.java:504-536 | activating, for every session and any failing calls |
| ForegroundMoves.BackgroundExactly | app/android/src/com/aauto/app/AaService.java:547-567 | the same for backgrounding |
| ForegroundMoves.DemoteCalls | app/android/src/com/aauto/app/AaService.java:590-602 | demotion succeeds if and only if three calls for each session in the foreground go through |
| ForegroundMoves.LoseSurfaceExactly | app/android/src/com/aauto/app/AaService.java:647-662 | the ACTIVE session goes to BACKGROUND exactly if its call goes through, and no other moves |
| ForegroundMoves.IdentifiedExactly | app/android/src/com/aauto/app/AaService.java:190-215 | the phone's other session goes, this one is CONNECTED, or ACTIVE exactly if no other phone plays and the calls go through, and every other is as it was |
| ForegroundMoves.CreateExactly | app/android/src/com/aauto/app/SessionManager.java:37-44 | the list as a map: a fresh entry under the id, all others as before, in order |
| ForegroundMoves.RemoveExactly | app/android/src/com/aauto/app/SessionManager.java:78-84 | the entry is gone and no other |
| ForegroundMoves.SetStateExactly | app/android/src/com/aauto/app/SessionManager.java:55-76 | one session's state and nothing else |
| Foreground.FocusKeepsRuleExactly | app/android/src/com/aauto/app/SessionManager.java:70-76 | a focus event keeps the rule if and only if its session is gone or no other is in the foreground |
| Foreground.IdentifiedKeepsPhones | app/android/src/com/aauto/app/AaService.java:190-215 | identifying a phone closes its other session, so that it has one |
| Foreground.AaService.DemoteOtherSessions | app/android/src/com/aauto/app/AaService.java:590-602 | three calls a session, the first failure ends it |
| Foreground.AaService.Activate | app/android/src/com/aauto/app/AaService.java:504-536 | the promotion to ACTIVE, for sessions past CONNECTING |
| Foreground.AaService.Background | app/android/src/com/aauto/app/AaService.java:547-567 | the promotion to BACKGROUND; no call at all if it is there already |
| Foreground.AaService.OnPhoneIdentified | app/android/src/com/aauto/app/AaService.java:190-215 | close the same phone's session, connect, activate if nothing else plays |
| Foreground.AaService.StopAndRemoveSession | app/android/src/com/aauto/app/AaService.java:431-447 | removed even when stopping fails |
| Foreground.AaService.OnSurfaceDestroyed | app/android/src/com/aauto/app/AaService.java:647-662 | ACTIVE becomes BACKGROUND where the call goes through |
| Foreground.SessionManager.CreateSession | app/android/src/com/aauto/app/SessionManager.java:37-44 | a new entry, or a fresh one in an old one's place |
| Foreground.SessionManager.OnPhoneIdentified | app/android/src/com/aauto/app/SessionManager.java:46-53 | named and CONNECTED |
| Foreground.SessionManager.Put | app/android/src/com/aauto/app/SessionManager.java:55-76 | one session's state changes, if it is listed |
| Foreground.SessionManager.RemoveSession | app/android/src/com/aauto/app/SessionManager.java:78-84 | the entry goes, the order of the others stays |
| Foreground.SessionManager.AnyAudioOrVideo | app/android/src/com/aauto/app/SessionManager.java:121-129 | true exactly if some session is ACTIVE or BACKGROUND |
| AudioCredits.CreditsAreConserved | docs/protocol.md:198-221 | in every reachable state credits, DATA in flight and ACKs in flight make 10, so that a phone without credit has one coming |
| AudioCredits.CreditsComeBack | docs/protocol.md:206-217 | from every reachable state, handling what is on the link brings all ten credits back: the stream never stops for good |
| AudioCredits.StepConserves | core/src/service/AudioService.cpp:160-197 | no event, with the service started or not and sinks attached or not, makes or loses a credit |
| AudioCredits.RepliesRefund | core/src/service/AudioService.cpp:105-197 | every message worth credits is answered with as many |
| AudioPlay.PlaysExactly | core/src/service/AudioService.cpp:128-197 | for any happenings: what is played is the sound of the data that came while started and attached, and what is answered is one ACK each in the session started last |
| AudioCredits.AudioService.OnData | core/src/service/AudioService.cpp:160-181 | one ACK whatever happens to the sound; played without its timestamp if it has one |

## Left out

- OpenSSL: certificates, records and handshake messages; the cipher is abstract with the laws above.
- Payloads of 2 GiB and more: the original narrows sizes to `int` when it calls OpenSSL.
- USB and TCP transports, AIDL and binder plumbing, factories, the Android user interface, decoders and players.
- Protobuf-generated message contents; the services that parse, log and forward (media browser, phone status, playback, Bluetooth, navigation, notification, sensor, input, video).
- The engine: its map of sessions, the ids it gives them, and `set_active_session`, which moves the sinks from one session to another. Sinks are attached by the phone's video focus and by attach-all as well, without regard to the active session, so that the engine alone does not decide which session has them.
- `aa/core/src/session/AapHandshaker.cpp`, an older tree that nothing here uses.
- Logging, name tables, fixed mapping tables.
- The session on bytes takes its chunks as they are read; that the read-ahead transport delivers them in order is stated for the message path.
- Destroying a read-ahead transport while handlers are outstanding, and empty handlers passed to it or to a feed.
- A limit on reassembly buffers: the code has none.
- Frames dropped at a full write queue are counted, not recovered; a message may lose some of its fragments there.
- Sinks of an audio service are one: the loops that hand the sound and the configuration to each of them are left out.
- Varints.ParseProtoVarint: runs for a given number of rounds, because on some bytes the original's loop has no end; FieldParserEnds.ParserEndsExactly says on which, and how many rounds are enough on all others.
- Rfcomm.SendMessage: takes 16-bit message ids, which all its callers pass, and leaves out flushing.
- Foreground.AaService.Activate: leaves out broadcasts, the display flow and what the engine's own sinks look like after a call that failed.
- Heartbeat.ControlService.OnHeartbeatTimer: the contents of a ping are left out; pings are counted.
