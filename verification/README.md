# IPK24CHAT client: a verified model

A model of the IPK24CHAT chat client (C, three threads, UDP and TCP) and proofs about it, in Dafny 4.11.
`dafny verify dfyconfig.toml` checks everything. Nothing was executed.

## What is modelled

The client is a transition system (`Protocol.dfy`, module `ChatProtocol`). Its state holds the program's
FSM state, the sending queue, the 16-bit message counter, the remembered ids of received messages, the
display name, and where the sender thread stands in its loop. Its steps are a line or the end of user
input, a received message, a UDP datagram with an empty field, a turn of the sender, and SIGINT; a run is
any sequence of them, in any interleaving. The sender's loop body is two steps, because the code lets the
other threads in between the filter and the transmission, and a third one where `logicFSM` waits and then
transmits without looking again. A run also records what was transmitted, what was printed, and which
datagram each CONFIRM answers. A path into `errHandling`, and a read through the null front of an empty queue,
end the program (`halted`).

`Config` fixes what a run cannot change: the protocol, the retry limit, whether `char` is signed, and the
id bytes the send buffers happen to start with (a queued message keeps them until it is sent).

Three imperative layers carry the model down to the code's own form:

- `Client.dfy`: the threads' handlers as methods that update the shared state (`ProgramInterface`). Each is
  proved to do what the transition system says; `HandleEvent` covers every step.
- `MessageQueue.dfy`: the linked list with `first`, `last`, `len` and `behindMe`, which refines a sequence.
- `Buffers.dfy`, `Assembling.dfy`, `Disassembling.dfy`, `Scanning.dfy`, `UserInput.dfy`, `Commands.dfy`:
  growing byte buffers, the two assemblers, the two disassemblers, the scanning loops and the tokenizer,
  each proved against functions in `Formats.dfy`, `Decoding.dfy` and `Tokenizer.dfy`.

`UserSteps.dfy`, `ServerSteps.dfy` and `SenderSteps.dfy` say what each typed line, each message of the server
(from the bytes on) and each turn of the sender does, and `Lifecycle.dfy` which events lead into each state.
`Recognition.dfy` says exactly which lines are which command, `TcpLines.dfy` which TCP lines are which message,
and `KnownAnswers.dfy` spells the formats out.

The properties of whole runs are in `Discipline.dfy`, `Reachability.dfy`, `Safety.dfy` and
`Reflagging.dfy` (retries, stop-and-wait, acknowledgement ids), `Waiting.dfy` (the confirmed AUTH),
`Delivery.dfy` (what is shown, at-most-once printing), `TcpDelivery.dfy` (exactly-once transmission over TCP),
`AckFates.dfy` (what becomes of an acknowledgement), `MessageIds.dfy` and `IdsInUse.dfy` (message ids),
`Authentication.dfy`, `ErrorShape.dfy`, `LostBye.dfy`, `Shutdown.dfy` and `Dooming.dfy` (closing),
`Crashes.dfy` (abnormal ends) and `EndToEnd.dfy` (contents). `Sessions.dfy`, `TcpSessions.dfy` and
`Overrun.dfy` hold runs from the start of the program, ordinary ones and those that reach the unexpected
cases, composed with `Runs.dfy`. `Primitives.dfy` reduces an invariant of all steps to one of seven queue operations.

## What the proofs show about the code

Some properties one would expect fail for inputs the proofs name; the model follows the code and the
condition is proved exactly.

- A CONFIRM whose id equals the stale id bytes of a BYE that was not sent yet, received in an error state
  when that BYE is alone in the queue, confirms it; the filter drops it and the sender waits for ever
  (`LostBye.ByeLostRun`, a concrete run). A step ends the waiting of the unconfirmed BYE if and only if it
  is that one (`LostBye.StepLive`), and the sender alone reaches END if and only if the BYE is alive and its
  thread has not left (`Shutdown.BoundedShutdown`). The events that take this ability away are exactly three
  (`Dooming.DoomedExactly`, `Dooming.CanEndExactly`): that CONFIRM, unless the BYE is about to be sent for
  the only time; an acknowledgement put in front of a confirmed BYE that is about to be sent for the last
  time; and a SIGINT after the sender thread has left.
- A JOIN that the server rejects crashes the client when the JOIN's CONFIRM was processed before the
  negative REPLY: the queue is empty and its front is read (`Sessions.RejectedJoinRun`, a whole session for
  every user and channel).
- An open client whose only queued message is an AUTH drops it and transmits through a null pointer
  (`Sessions.AuthAloneRun`). This and all other abnormal ends of the modelled steps are listed exactly by
  `Crashes.HaltsExactly`; a UDP datagram with an empty field is one of them (`Crashes.HaltsOnBytes` and
  `Decoding.DecodeFails`, from the bytes on).
- A positive REPLY to AUTH that finds a CONFIRM at the front reflags that CONFIRM instead of the AUTH. It is
  then stamped with the client's own counter and resent (`Sessions.AckResentRun`). Queued CONFIRMs stay
  acknowledgements if and only if no event does this (`Reflagging.AcksStayExactly`), and without one
  stop-and-wait holds in its strict form (`Reflagging.StrictStopAndWait`).
- A CONFIRM from the server whose id equals that of a queued acknowledgement is taken for it. It sets the
  counter, so that the id of a confirmed message is used again for the next one
  (`Sessions.IdRecursRun`), and if the filter comes to the acknowledgement before it is transmitted, it is
  never sent (`Sessions.AckLostRun`). The counter stays on its cycle if and only if no event sets it to
  another number (`IdsInUse.CycleExactly`).
- A waiting acknowledgement is removed without being transmitted if and only if the event is a SIGINT, an ERR
  or an unknown message, a time-out of the filter, or the filter reaching and dropping it; otherwise it goes
  on waiting, or goes out with its own bytes, unless a REPLY reflags it (`AckFates.StepFate`). Once removed,
  it is transmitted in no continuation (`AckFates.LostForEver`).
- With a signed `char`, an id with a byte of 0x80 or more is never recognised as a duplicate, and such a MSG
  is printed each time it arrives (`Delivery.DeliveredExactly`; `Sessions.RepeatedMessageRun` is a session,
  for instance with the id bytes 0x80 and 0).
- With a signed `char`, a message id whose low byte is 0x80 or more is read back as another number
  (`MessageIds.DecodedCounter`); the confirmed ids still form a single cycle (`MessageIds.IdReached`).
- With `udpMaxRetries` 255 the 8-bit counter never exceeds the limit and an unanswered message is sent for
  ever (`Safety.NoBoundAt255`).
- For JOIN the assemblers reserve the length of the channel instead of the display name
  (`Assembling.Reservations` gives the exact condition under which that suffices). After /auth and /rename, a
  /join can write beyond everything its buffer ever allocated, exactly under the condition of
  `Overrun.JoinOverrunRun`.
- The tokenizer compares a typed command only up to its own length, so every prefix of a command's name is
  that command, and a line that starts with a blank is read as `/auth` (`UserInput.MessageRecognised`). An
  /auth, even cut short, with nothing but three or more blanks behind it logs in with its last letter as user name,
  secret and display name; `Recognition.AuthExactly` lists exactly the lines that log in.

## Model

| member | source | states |
|---|---|---|
| Safety.RetryBound | src/protocolSender.c:157-221 | with a limit below 255, no message is transmitted more than limit + 1 times in any run, and the 8-bit counter of a queued message is the number of its transmissions |
| Safety.NoBoundAt255 | src/protocolSender.c:160 | with the limit 255 the sender alone transmits an unanswered BYE n times, for every n |
| Safety.StopAndWait | src/protocolSender.c:293-354 | in every run, before a queued message that was transmitted there are only CONFIRMs; it is no CONFIRM itself, or one that a REPLY reflagged |
| Reflagging.StepAcks | src/protocolReceiver.c:274-291 | from any state with the discipline whose queued CONFIRMs are acknowledgements, a step keeps them so if and only if it is no positive REPLY to AUTH that finds a CONFIRM at the front |
| Reflagging.AcksStayExactly | src/protocolReceiver.c:274-291 | the queued CONFIRMs are acknowledgements after every step of a run if and only if no event of it is such a REPLY |
| Reflagging.StrictStopAndWait | src/protocolSender.c:293-354 | in a run without such a REPLY, only the first message that is not a CONFIRM has been transmitted |
| Sessions.AckResentRun | src/protocolReceiver.c:278-284 | a session, for every user and server ids, in which the acknowledgement of a MSG is transmitted twice with the client's counter as its id and stays queued |
| Safety.FirstTransmissionsInOrder | src/libs/msgQueue.c:149-197 | in every run, messages other than CONFIRMs leave in the order in which they were enqueued |
| SenderSteps.TurnExactly | src/protocolSender.c:29-354 | for every state: exactly when a turn transmits and which message, that it goes out as queued except for the counter stamped into it over UDP, and whether it leaves the queue or stays there counted |
| SenderSteps.PlaceExactly | src/protocolSender.c:241-362 | for every state: where a turn leaves the sender thread, out of its loop, at logicFSM, in its unchecked wait or at the top |
| Waiting.SilentWhileWaiting | src/protocolSender.c:72-84 | from any moment of a run at which a transmitted, confirmed AUTH is queued, and for as long as the client waits for the REPLY, no event of any thread transmits this AUTH again or changes it |
| Waiting.WaitsAlone | src/protocolSender.c:72-84 | with such an AUTH in front the sender alone transmits nothing and changes nothing in any number of turns |
| Waiting.AuthSentExactly | src/protocolSender.c:38-86 | in every run, before authentication, a turn of the sender transmits an AUTH if and only if it is at logicFSM with an AUTH in front that was not both transmitted and confirmed |
| TcpDelivery.StepComplete | src/protocolSender.c:297-354 | over TCP a step keeps transmitted and queued messages together all that were ever enqueued, each once and in order, if and only if it discards nothing (SIGINT, ERR or unknown message with messages queued, an AUTH in front of an open client) |
| TcpDelivery.CompleteExactly | src/libs/msgQueue.c:149-170 | the same iff over every TCP run |
| Safety.AcknowledgementIds | src/protocolReceiver.c:82-115 | every transmitted acknowledgement is byte for byte the CONFIRM of a datagram the run received |
| Safety.ConfirmMarks | src/protocolReceiver.c:197-256 | a CONFIRM marks the front message, and changes no other, if and only if that is an AUTH or holds the same two id bytes; otherwise and on an empty queue nothing changes |
| Safety.ClosingForEver | src/main.c:249 | no step leaves the closing states, for any state whatsoever |
| Lifecycle.EntersExactly | src/protocolReceiver.c:197-526 | for every state of the program, a step leads into it from another one if and only if it is one of the events listed for it: REPLY, CONFIRM, ERR, BYE, a line, the end of input, SIGINT, or a turn of the sender with a certain message in front |
| Lifecycle.RunEntersExactly | src/protocolSender.c:29-143 | the same after every run |
| Safety.GoneOnlyAfterSigint | src/protocolSender.c:241 | in every run the sender thread has left its loop only in END, or after a SIGINT |
| Safety.CleanShutdown | src/protocolSender.c:241-362 | a run without SIGINT, or with the sender thread still in its loop, that never confirms an unsent BYE closes within the bound of the sender alone |
| Discipline.SoundKept | src/protocolSender.c:293-354 | queue order, counters, transmission order and acknowledgement ids survive each queue operation |
| Primitives.StepKeeps | src/protocolSender.c:241-362 | whatever each of seven queue operations keeps, every step of every thread keeps, provided the sender's front message is ready |
| Reachability.RunSound | src/protocolSender.c:241-362 | the sending discipline holds in every reachable state, and between filter and transmission a front message with retries left exists, whatever steps come in between |
| Reachability.FilterDrops | src/protocolSender.c:153-224 | in ERR_W84_CONF, or when no exhausted message comes before the one the filter stops at, it removes a prefix of rejected, confirmed non-AUTH or, after an ERR, exhausted messages, and changes nothing else |
| Reachability.FilterCalmExactly | src/protocolSender.c:153-224 | this condition on the queue before the filter holds if and only if the filter changes neither the state of the FSM nor what is enqueued, and does not end the program |
| Reachability.FilterStops | src/protocolSender.c:153-224 | the message the filter leaves in front has retries left and is an AUTH or unconfirmed, and not rejected |
| ErrorShape.RunShape | src/protocolSender.c:114-139 | in every run, the queue of the error states is acknowledgements, then at most one ERR, then at most one BYE that was not sent; in END_W84_CONF acknowledgements, then at most one BYE |
| LostBye.StepLive | src/protocolReceiver.c:197-256 | a step in the closing error states keeps an unconfirmed BYE at the end of the queue if and only if it does not confirm that BYE before it was sent |
| LostBye.RunLive | src/protocolReceiver.c:475-524 | over every run without that event the BYE is there |
| LostBye.RunLiveExactly | src/protocolReceiver.c:475-524 | the BYE is there after every step of a run if and only if no event of it confirms it unsent |
| LostBye.ErrorStateQueue | src/protocolReceiver.c:475-524 | over every run without that event, ERR and ERR_W84_CONF have acknowledgements, at most one ERR and exactly one unsent, unconfirmed BYE queued |
| LostBye.EndStateQueue | src/protocolSender.c:117-127 | likewise END_W84_CONF has acknowledgements and exactly one BYE queued |
| LostBye.ErrorStateSends | src/protocolSender.c:134-139 | over every run, the branch of logicFSM for a message that is not expected in an error state is not reached |
| LostBye.ByeLostRun | src/protocolReceiver.c:209-221 | a run that ends in ERR with an empty queue, for every stale id and every received id |
| Shutdown.BoundedShutdown | src/protocolSender.c:241-362 | from every reachable closing state with a display name, the sender alone reaches END if and only if the BYE is alive and the thread has not left, and then within a number of turns and datagrams computed from the queue |
| Shutdown.ErrorShutdown | src/protocolSender.c:153-224 | from ERR with a live BYE at most one datagram per queued acknowledgement and 2 * (limit + 1) more are transmitted before END |
| Shutdown.TurnCloses | src/protocolSender.c:241-362 | each turn of the sender lowers the measure of turns left, pays for its datagram, and keeps whether the client is doomed |
| Shutdown.ReachesEnd | src/protocolSender.c:241-362 | a closing state that is not doomed reaches END within the bound |
| Shutdown.NeverEnds | src/protocolSender.c:266-283 | a doomed closing state never reaches END by itself |
| Dooming.DoomedExactly | src/protocolReceiver.c:197-459 | from any closing state with the invariants of reachable ones and a display name that can still end, a step leads to one that cannot if and only if it is one of three events: a CONFIRM for the unsent BYE that is not about to be sent for its only time, an acknowledgement put before a confirmed BYE about to be sent for its last time, a SIGINT after the sender thread left |
| Dooming.CanEndExactly | src/protocolSender.c:241-362 | over any continuation of a run that closes, the client can end after each of its events if and only if none of them is such an event |
| Authentication.AuthenticationBeforeUse | src/protocolReceiver.c:403-431 | in every run, UDP or TCP, the open states are entered and a MSG or JOIN is queued or transmitted only after an AUTH was enqueued and, later, a positive REPLY was handled |
| Authentication.StepTracked | src/main.c:147-226 | each step keeps what the state shows about whether an AUTH was enqueued and accepted |
| Delivery.RepetitiveExact | src/libs/msgQueue.c:354-379 | the duplicate check succeeds if and only if the same kind and id were remembered and `char` is unsigned or both id bytes are below 0x80 |
| Delivery.MessageReceipt | src/protocolReceiver.c:439-459 | the whole state after a handled MSG: one CONFIRM more in front, the id remembered, printed unless recognised as a duplicate, nothing else |
| Delivery.ReplayedReply | src/protocolReceiver.c:388-399 | after any run that handled the same REPLY before, a replay changes nothing but one CONFIRM more in front |
| Delivery.SeenExactly | src/libs/msgQueue.c:207-246 | what the duplicate check remembers is exactly what the run handled |
| Delivery.DeliveredExactly | src/protocolReceiver.c:345-459 | over every run a MSG with a detectable id is printed once however often it was handled, one with another id every time, and each handled receipt made exactly one CONFIRM |
| Delivery.ShownExactly | src/protocolReceiver.c:439-497 | over every run of either protocol, what is printed is exactly the handled ERRs, and the handled MSGs that are not recognised as repetitions over UDP, in the order of arrival |
| Delivery.ShownEachTime | src/protocolReceiver.c:439-497 | every ERR, and over TCP every MSG, is printed as often as it was handled |
| Sessions.RepeatedMessageRun | src/libs/msgQueue.c:354-379 | a session, for every user and ids, that ends with the same MSG received twice: printed once if its id is detectable and twice if not, so twice for the id bytes 0x80 and 0 with a signed `char`, and acknowledged twice |
| AckFates.StepFate | src/protocolReceiver.c:197-331 | a step removes a waiting acknowledgement untransmitted if and only if it empties the queue (SIGINT, ERR, unknown message, time-out) or is a turn whose filter drops it; it leaves it waiting, or transmits it once with its own bytes, if and only if it does neither and is not the REPLY that reflags it |
| AckFates.Fate | src/protocolReceiver.c:82-115 | in every run each acknowledgement waits, was transmitted exactly once with its own bytes, is gone untransmitted, or was reflagged by an event of the run while it waited |
| AckFates.LostForEver | src/protocolSender.c:297-354 | an acknowledgement that left the queue untransmitted is transmitted in no continuation of the run |
| Sessions.AckLostRun | src/protocolReceiver.c:203-221 | a session in which the acknowledgement of a MSG is dropped, and is transmitted in no continuation of it |
| MessageIds.DecodeInjective | src/libs/utils.c:233-237 | the 16-bit id determines the two id bytes, for signed and unsigned `char` |
| MessageIds.NextInjective | src/protocolReceiver.c:218-221 | the step from a confirmed counter to the next one is injective |
| MessageIds.IdCycle | src/libs/utils.c:220-237 | up to 65536 confirmations, the first id comes back after none and after exactly 65536, for signed and unsigned `char` |
| MessageIds.IdsDistinct | src/libs/utils.c:220-237 | ids fewer than 65536 confirmations apart differ |
| MessageIds.IdReached | src/libs/utils.c:220-237 | every id is reached from every other one in fewer than 65536 confirmations: a single cycle |
| MessageIds.IterBlocks | src/libs/utils.c:233-237 | 256 confirmations keep the low byte and add 1 to the high byte, or 129 with a signed `char` |
| IdsInUse.StepCounter | src/protocolReceiver.c:197-331 | for every state, a step over UDP sets the counter to the number after the received id if it takes a CONFIRM for the front message or handles a REPLY, and otherwise leaves it |
| IdsInUse.StepAdvances | src/protocolReceiver.c:197-221 | a step that does not set the counter to another number leaves it alone or, confirming the message in flight, moves it one step along the cycle; messages in flight keep carrying the counter's id |
| IdsInUse.OnCycleExactly | src/protocolReceiver.c:197-221 | the counter stays or moves along the cycle in a step if and only if the step is no such reset |
| IdsInUse.CycleExactly | src/libs/msgQueue.c:422-455 | over any part of a run that starts on the counter, the counter is after every event where the number of confirmations puts it if and only if no event resets it |
| IdsInUse.IdsFollowCycle | src/libs/msgQueue.c:422-455 | over any part of a run without resets, the i-th confirmed id is the i-th on the cycle, and the counter is where the number of confirmations puts it |
| IdsInUse.NoIdRecurs | src/libs/utils.c:220-237 | the confirmed ids of such a part repeat after exactly 65536 and not before |
| IdsInUse.NoIdRecursFromQuiet | src/libs/utils.c:220-237 | the same for every part without resets that starts with nothing in flight, so also from the start of the program |
| Sessions.IdRecursRun | src/protocolReceiver.c:209-221 | a session in which a CONFIRM taken for an acknowledgement resets the counter, and two different messages go out under the same id |
| Crashes.HaltsExactly | src/main.c:41-81 | in every run, the next step ends the program abnormally if and only if one of the listed conditions holds, a UDP datagram with an empty field among them |
| Crashes.HaltsOnBytes | src/protocolReceiver.c:571-605 | over UDP, the same for every datagram that holds the fields of its kind up to their zero bytes, from its bytes on: it ends the program if and only if the receiver has not stopped and a field is empty or the message is one of those listed |
| Decoding.DecodeFails | src/libs/ipk24protocol.c:319-401 | disassembling such a datagram ends the program if and only if one of its fields is empty |
| Crashes.StepHalts | src/protocolReceiver.c:300-304 | the same for one step, from any state with the invariants of reachable ones |
| Crashes.RejectedJoinCrashes | src/protocolReceiver.c:300-310 | from every idle open client, /join, its transmission, its CONFIRM, a turn of the sender and a negative REPLY crash the program |
| Sessions.IdleRun | src/main.c:237-321 | every valid /auth line, with its CONFIRM and a positive REPLY, leads from the start of the program to an idle open client |
| Sessions.RejectedJoinRun | src/protocolReceiver.c:300-310 | a session from the start of the program that ends in that crash, for every user and channel |
| Sessions.AcceptedJoinRun | src/protocolReceiver.c:275-298 | a session, for every user, channel and reply, that joins: the JOIN goes out once, a server reads it as typed, and after the bytes of a positive REPLY the client is open and idle again |
| TcpSessions.ChatRun | src/protocolReceiver.c:401-431 | a whole TCP session from the start of the program to its end, from bytes to bytes: login, REPLY OK, a message each way, /exit; the three messages go out as typed, the received one is shown, and the sender leaves its loop in END |
| Sessions.AuthAloneRun | src/protocolSender.c:99-105 | a session from the start of the program to an open client with nothing but an AUTH queued, which the next turn of the sender crashes |
| EndToEnd.DisplayNameValid | src/main.c:154-206 | in every run the display name is unset or passed controlWord |
| EndToEnd.RunAuthored | src/main.c:265-305 | in every run, each AUTH, JOIN or MSG queued or transmitted is the message of a line the user typed, with the display name of that moment and some id |
| EndToEnd.TransmittedAsTyped | src/libs/ipk24protocol.c:783-791 | reading any transmitted AUTH, JOIN or MSG back in its format, UDP or TCP, gives exactly the words of that line and that display name |
| EndToEnd.CommandReadBack | src/libs/ipk24protocol.c:54-301 | in both formats, every command that passed controlWord, and BYE and the two ERRs of the client, come back from their messages with their own words |
| UserSteps.LineExactly | src/main.c:147-315 | for every state and line, the whole effect: which lines queue a message, in which states; one message more at the end, which any server reads as that command with the stored display name; which lines change the display name, and to which state they lead |
| UserSteps.ExitTyped | src/main.c:213-214 | /exit, or a beginning of it, in every state that does not close yet: exactly one BYE more, and EMPTY_Q_BYE |
| UserSteps.HelpTyped | src/main.c:172-175 | /help, or a beginning of it, changes nothing |
| UserSteps.EofExactly | src/main.c:253-263 | the end of input: exactly one BYE more and EMPTY_Q_BYE, and nothing while closing |
| UserSteps.SigintExactly | src/libs/cleanUpMaster.c:205-230 | SIGINT: one BYE is the only queued message, in state SIGINT_BYE |
| ServerSteps.IgnoredExactly | src/protocolReceiver.c:571-605 | for every state and message: in END nothing is received and in START only REPLY and CONFIRM; everything else is remembered (UDP), or printed, obeyed or refused (TCP) |
| ServerSteps.UdpReplyArrives | src/protocolReceiver.c:268-331 | a REPLY over UDP, from its bytes on: positive exactly for result 1; in every state the whole change of queue, state, counter and memory: accepted, rejected with an AUTH in front, rejected without, with an empty queue, repeated, or not awaited |
| ServerSteps.TcpReplyArrives | src/protocolReceiver.c:401-431 | a REPLY line over TCP, from its bytes on: OK opens the client after AUTH, NOK takes it back to START, either one answers a JOIN, and nothing else changes |
| ServerSteps.ErrorArrives | src/protocolReceiver.c:475-497 | ERR: the queue is its CONFIRM (UDP) and one readable BYE, it is printed, state ERR |
| ServerSteps.UnknownArrives | src/protocolReceiver.c:498-524 | an unknown message: its CONFIRM (UDP), an ERR with the reason and the display name, and a BYE; or the end of the program without a display name |
| ServerSteps.ByeArrives | src/protocolReceiver.c:460-474 | BYE: its CONFIRM in front (UDP), state END, and nothing printed |
| ServerSteps.TimeOutExactly | src/protocolSender.c:174-195 | a time-out leaves an ERR with its reason and the display name, then a BYE |
| ServerSteps.UdpEvents | src/libs/ipk24protocol.c:319-401 | the bytes of CONFIRM, BYE, MSG and ERR arrive as these messages with their id bytes |
| ServerSteps.TcpEvents | src/libs/ipk24protocol.c:419-517 | the lines of BYE, MSG, ERR and both REPLYs arrive as these messages |
| Decoding.UdpPairRoundTrip | src/libs/ipk24protocol.c:377-390 | for non-empty fields without zero bytes, disassembling an assembled JOIN, MSG or ERR returns the kind, both fields and the decoded id |
| Decoding.UdpAuthRoundTrip | src/libs/ipk24protocol.c:358-375 | the same for the three fields of AUTH |
| Decoding.StampedPairRoundTrip | src/libs/msgQueue.c:422-437 | a JOIN, MSG or ERR with any old id bytes and the counter stamped into it comes back with its kind and fields, and with the counter as its id if and only if `char` is unsigned or the low byte is below 0x80 |
| Decoding.StampedAuthRoundTrip | src/libs/msgQueue.c:422-437 | the same for AUTH |
| Decoding.UdpReplyRoundTrip | src/libs/ipk24protocol.c:340-355 | disassembling a REPLY with any result byte returns its id, reference and contents, and it is positive if and only if the result is 1 |
| Decoding.UdpHeaderRoundTrip | src/libs/ipk24protocol.c:337-396 | CONFIRM and BYE come back as themselves with their ids |
| MessageIds.DecodedCounter | src/libs/utils.c:220-237 | breaking a counter into bytes and joining them gives the counter back if and only if `char` is unsigned or the low byte is below 0x80 |
| Decoding.TcpPairRoundTrip | src/libs/ipk24protocol.c:419-517 | for a name without blanks and line ends and contents without line ends, even with " IS " inside, disassembling an assembled MSG or ERR returns both |
| Decoding.TcpByeRoundTrip | src/libs/ipk24protocol.c:481-484 | an assembled BYE is read as BYE |
| TcpLines.TcpReplyRoundTrip | src/libs/ipk24protocol.c:448-480 | a REPLY line comes back with its result, whatever its contents |
| TcpLines.TcpKindExactly | src/libs/ipk24protocol.c:419-517 | for every line, which message the client takes it for, if and only if it has the form of that message; any other line is an unknown message |
| TcpLines.TcpAuthRoundTrip | src/libs/ipk24protocol.c:235-242 | a reader of the words between the keywords gets user name, display name and secret back from an AUTH line, each in its place |
| TcpLines.TcpJoinRoundTrip | src/libs/ipk24protocol.c:271-284 | the same for channel and display name of a JOIN line |
| KnownAnswers.TcpMessages | src/libs/ipk24protocol.c:187-301 | the TCP messages as texts with the words in their places |
| KnownAnswers.UdpMessages | src/libs/ipk24protocol.c:54-169 | one UDP message of each kind, byte by byte, with the counter stamped into it |
| KnownAnswers.ReplyTexts | src/libs/ipk24protocol.c:404-408 | the texts of a REPLY line |
| KnownAnswers.Reasons | src/protocolSender.c:185-186 | the reasons the client gives in its ERR |
| KnownAnswers.IdNumbers | src/libs/utils.c:220-237 | ids, their bytes and the next id in numbers; a signed `char` takes 256 away |
| KnownAnswers.CommandNames | src/libs/ipk24protocol.c:721-782 | the names of the commands and the bytes that separate and end words |
| Decoding.FormatsAgree | src/libs/ipk24protocol.c:319-517 | a valid name and text come back unchanged, and equal, from UDP and from TCP |
| Assembling.Reservations | src/libs/ipk24protocol.c:57-105 | AUTH, MSG and ERR fit what is reserved for them in both formats and all lengths; JOIN fits if and only if the display name is no longer than the stated sum |
| Assembling.AssembleUdp | src/libs/ipk24protocol.c:54-169 | the allocated bytes grow to what is reserved; assembling fails exactly without a needed display name and overruns exactly for a JOIN longer than the allocated bytes; otherwise every write is inside them and the buffer holds exactly the UDP message with its two id bytes kept |
| Assembling.AssembleTcp | src/libs/ipk24protocol.c:187-301 | the same for the TCP message |
| Overrun.JoinOverrunRun | src/libs/ipk24protocol.c:72-75 | a session of /auth, /rename and /join, for all words: the JOIN is longer than all the bytes main's buffer has by then if and only if the two stated sums of lengths are exceeded |
| Disassembling.DisassembleUdp | src/libs/ipk24protocol.c:319-401 | the scanning code reads only received bytes and returns what the decoding function says, or ends the program on an empty field |
| Disassembling.DisassembleTcp | src/libs/ipk24protocol.c:419-517 | the same for TCP lines |
| Scanning.FindBlankCharInString | src/libs/utils.c:57-72 | the offset of the first blank or line end within the bound, or -1 |
| Scanning.FindNewLineInString | src/libs/utils.c:81-94 | the offset of the first line end within the bound, or -1 |
| Scanning.SkipBlankCharsInString | src/libs/utils.c:103-122 | the offset of the first non-blank within the bound, or -1 |
| Scanning.FindZeroInString | src/libs/utils.c:131-144 | the offset of the first zero byte, or the bound; none where the program ends |
| Scanning.StringReplace | src/libs/utils.c:175-184 | the destination holds the source's bytes at the place given and keeps all others |
| Scanning.Scan | src/libs/utils.c:57-144 | the result is the first stopping position within the bound, and -1 means there is none |
| Buffers.Buffer.Resize | src/libs/buffer.c:39-56 | the buffer has the larger of the two sizes and keeps its bytes |
| Buffers.Buffer.Copy | src/libs/buffer.c:64-83 | afterwards the destination holds the source's bytes and never fewer allocated bytes than before |
| Commands.ControlWord | src/libs/ipk24protocol.c:591-657 | true exactly for words within the length limit made of allowed characters |
| KnownAnswers.WordsAccepted | src/libs/ipk24protocol.c:527-576 | the words of every recognised command have the allowed lengths and characters, in numbers |
| KnownAnswers.LongestWords | src/libs/ipk24protocol.c:591-657 | words of the greatest lengths, of the extreme characters, are valid |
| UserInput.UserInputToCmds | src/libs/ipk24protocol.c:700-794 | the tokenizer's loops over the input buffer return the command the parsing function gives the line |
| Tokenizer.Parse | src/libs/ipk24protocol.c:700-794 | whatever is recognised passed controlWord, and a message is the line itself |
| Recognition.AuthExactly | src/libs/ipk24protocol.c:721-740 | a line logs in with given words if and only if they are valid and it is three words behind a beginning of "/auth", separated by blanks, or that beginning with at least three blanks and nothing else, whose last letter is then all three words |
| Recognition.AuthRecognised | src/libs/ipk24protocol.c:721-740 | /auth with three valid words between any positive runs of blanks is recognised with exactly these words |
| Recognition.ArgumentExactly | src/libs/ipk24protocol.c:741-772 | a line is a /join or a /rename with a given word if and only if that is valid and stands between blanks behind a beginning of the command's name and the end of the line |
| Recognition.ArgumentRecognised | src/libs/ipk24protocol.c:741-772 | /join and /rename with blanks and a valid word are recognised with exactly that word |
| Recognition.FirstWordSelects | src/libs/ipk24protocol.c:721-782 | a line is /exit, or /help, if and only if its first word is a beginning of that name with at least two bytes; the other commands come from their own names only |
| UserInput.MessageRecognised | src/libs/ipk24protocol.c:783-791 | a line is a message, and then itself, if and only if it is valid text whose first word is no prefix of a command's name |
| LinkedQueue.MessageQueue.Walk | src/libs/msgQueue.c:149-197 | following the list reaches the k-th message in k steps and the null pointer after exactly len: no cycle, last reachable, len the length of the chain |
| LinkedQueue.MessageQueue.Add | src/libs/msgQueue.c:149-170 | the queue is a valid list and its sequence is the old one with the new message at the end |
| LinkedQueue.MessageQueue.AddPriority | src/libs/msgQueue.c:179-197 | the same with the new message in front |
| LinkedQueue.MessageQueue.AddOnlyId | src/libs/msgQueue.c:207-246 | the remembered kinds and ids are the old ones and the new one |
| LinkedQueue.MessageQueue.Pop | src/libs/msgQueue.c:258-287 | the sequence loses its first message, an empty queue stays as it is |
| LinkedQueue.MessageQueue.PopAll | src/libs/msgQueue.c:294-306 | the queue is empty |
| LinkedQueue.MessageQueue.ContainsMessageId | src/libs/msgQueue.c:354-379 | true exactly when some remembered message matches under the comparison of a char with an unsigned byte |
| LinkedQueue.MessageQueue.MessageSent | src/libs/msgQueue.c:391-395 | the first counter is one more, modulo 256, and all else is as it was |
| LinkedQueue.MessageQueue.SetMessageId | src/libs/msgQueue.c:422-437 | the first message carries the counter's bytes, unless it is an acknowledgement |
| LinkedQueue.MessageQueue.GetMessageId | src/libs/msgQueue.c:445-455 | the decoded id of the first message, 0 without one |
| Client.ProgramInterface.HandleEvent | src/main.c:399-408 | for every event, the imperative code takes the shared state where the transition system says, and keeps both linked lists valid and apart |
| Client.ProgramInterface.FilterResentMessages | src/protocolSender.c:153-224 | the loop terminates in the state the filter function gives, and asks for a reset exactly when it left END_W84_CONF |
| Client.ProgramInterface.LogicFsm | src/protocolSender.c:29-143 | transmitting after it, or waiting where it says so, is the sender's second step |
| Client.ProgramInterface.SendFront | src/protocolSender.c:297-354 | the stamped front message is transmitted and recorded, then popped or counted, as the transition system says |
| Client.ProgramInterface.SenderTurn | src/protocolSender.c:232-366 | one turn of the sender thread is the sender step of the transition system |
| Client.ProgramInterface.HandleConfirmUdp | src/protocolReceiver.c:197-256 | the whole state after a CONFIRM |
| Client.ProgramInterface.HandleReplyUdp | src/protocolReceiver.c:268-331 | the whole state after a REPLY, with the null read of an empty queue |
| Client.ProgramInterface.DispatchMessage | src/protocolReceiver.c:378-526 | the whole state after each kind of message, given the duplicate check |
| Client.ProgramInterface.ReceiveMessage | src/protocolReceiver.c:571-605 | the whole state after a received message, loop guard and duplicate check included |
| Client.ProgramInterface.ReceiveUdp | src/protocolReceiver.c:582-604 | the same from the bytes of a datagram on |
| Client.ProgramInterface.ReceiveTcp | src/protocolReceiver.c:584-604 | the same from the bytes of a TCP line on |
| Client.ProgramInterface.SendConfirm | src/protocolReceiver.c:82-115 | one CONFIRM with the received id in front |
| Client.ProgramInterface.SendBye | src/protocolReceiver.c:122-143 | one BYE at the end |
| Client.ProgramInterface.SendError | src/protocolReceiver.c:152-188 | one ERR at the end, or the end of the program without a display name |
| Client.ProgramInterface.FilterCommandsByFsm | src/main.c:147-226 | enqueueing what it lets through gives the state the transition system gives for the command |
| Client.ProgramInterface.UserLine | src/main.c:237-321 | a line of input, from the input buffer on, takes the state where the transition system says |
| Client.ProgramInterface.SigintHandler | src/libs/cleanUpMaster.c:205-230 | the queue is emptied, then holds one BYE, in state SIGINT_BYE |

## Left out

- Sockets, `recvfrom`, `sendto`, host lookup, time: received datagrams are events, transmitted ones are recorded, and a time-out of the waiting sender is just its next turn.
- Locks and condition variables: steps are atomic, a waiting thread is a step that changes nothing, and lost wake-ups, double locking and the unlocked `sendConfirm` in receiverFSM are not modelled. So END as the final state, and liveness while the network answers, are not claimed.
- Within a step, the moment at which another thread could see the state between two of its assignments (for example between `setProgramState` and `sendBye`).
- The buffers the threads assemble into: the transition system takes the assembled bytes as a value, and the id bytes such a buffer starts with as a constant. `Assembling.AssembleUdp` proves that assembling keeps them.
- Lines made of blanks only: the code reads before the start of its buffer, so such a line is a step that changes nothing. Datagrams that end before the fields of their kind do, where the scanners read what an earlier message left behind, are excluded by `Decoding.WholeDatagram`.
- Contents of a TCP REPLY, which the code cuts at the first blank, and the division of a TCP stream into messages.
- Argument parsing, help texts, the printed text itself, debug code, allocation failures, loading of standard input.
- The unions in `Message`: the id bytes of a remembered message and the counters of a queued one are separate fields; no queue uses both.
- Decoding.TcpPairRoundTrip: speaks of MSG and ERR only, because the client does not disassemble AUTH or JOIN from TCP; `TcpLines.TcpRead` stands for the reader of a server, which is not part of the source.
- IdsInUse.NoIdRecurs: speaks of parts of a run without resets, and `IdsInUse.CycleExactly` shows that every reset leaves the cycle; which ids are used after one is the server's choice.
- Overrun.JoinOverrunRun: counts what main's buffer has at most; an event that may assemble a BYE counts as one that does.
- Client.ProgramInterface.HandleEvent: the scheduler that picks the next event is not code of the source; it stands for the three threads and the signal.
