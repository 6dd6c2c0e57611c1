# A verified model of go-l2tp

go-l2tp is a Go library that runs the L2TP control protocol (RFC 2661 and, in part, RFC 3931).
This project models its three hard parts in Dafny and proves what they are for.

**The reliable transport** (`l2tp/transport.go`). `Transport.dfy` holds the objects of the program:
`SlowStartState`, `XmitMsg` and `Transport`, with the loops over the queues as they are written. Every
method is proved to compute a function on endpoint states (`Endpoint.dfy`), and every arm to keep the
endpoint's invariant. Those functions carry a history
beside the program's own state: the unbounded counters behind the sixteen-bit Ns and Nr, and everything
submitted, completed, accepted and written. No decision reads the history. `Network.dfy` and `Delivery.dfy`
join two endpoints by a network that loses, duplicates and reorders frames (a step delivers any frame the peer
ever wrote, as bytes, as often as it likes). The sender's arms, the receiver's two halves (queueing a
frame, walking the queue) and the arrival of Nr values at the sender are separate steps, so the two goroutines of an
endpoint interleave freely. The acknowledgement and HELLO timers expire at any time while armed and are noticed
at any time after that; a retry timer fires at any time, and the wait it was armed with is recorded with the frame. Every
socket write may fail. Two steps that sixteen bits cannot tell from others are excluded: delivering a message that was
accepted before when the receiver is back at its number a whole number of cycles later, and using an Nr that the oldest
outstanding message is more than half a cycle beyond. Both have to be
(`Network.AliasedFrameIsAccepted`, `Network.OutdatedNrCompletes`). Submitted messages
pass `validate`, as `send` demands, and are well formed in the sense of `Messages.RoundTrip`.

**The codec** (`l2tp/avp.go`, `l2tp/msg.go`). `Wire.dfy`, `Avps.dfy`, `Payloads.dfy`, `Messages.dfy`,
`Validation.dfy` and `Builders.dfy` model parsing, printing, validation and the message builders over byte sequences.

**The control connection** (`l2tp/fsm.go`, `l2tp/l2tp_dynamic_tunnel.go`, `l2tp/l2tp_dynamic_session.go`,
session indexes of `l2tp/l2tp.go`). `Fsm.dfy` is the table-driven machine; `Tunnel.dfy` and `Session.dfy` are
the two tables with their callbacks as functions, re-entrant through their event handlers;
`DynamicTunnel.dfy`, `DynamicSession.dfy` and `SessionIndex.dfy` are the objects, each method proved to
compute its function. `Connection.dfy` composes one tunnel with any number of sessions and the user into one
machine whose loops take turns in any order; `ControlSafety.dfy` and `IndexAgreement.dfy` prove properties of all its
runs, and `ControlExamples.dfy` builds the runs in which they fail. A call that panics or never returns halts its loop for
good.

**End to end** (`EndToEnd.dfy`). The control plane runs on top of the transport, against any peer: a turn that sends
blocks until the transport completes its message, what it records is the transport's result, and the messages it handles
are the ones the transport accepted. What the control plane believes is then shown to be so at the peer, and
`EndToEndExample.dfy` shows a tunnel and a session coming up.

**Operation by operation.** Beside the laws over runs, each operation is pinned down on every input by the numbers it
deals in: the bytes of messages and AVPs and what the parsers do with every buffer (`WireFormat.dfy`), what each arm of the
transport writes, completes and leaves behind (`TransportAnswers.dfy`), and what tunnel and session do with every message
type in every live state (`TunnelAnswers.dfy`, `SessionAnswers.dfy`). `Forwarding.dfy` follows session messages from the tunnel to
the sessions, and `PeerIds.dfy` the session IDs from the peer's reply into our messages.

Where the code does less than its comments say, the model follows the code:

* The receiver looks only at the head of its queue. One message ahead of its turn stops it for good
  (`ReceiveStall.StalledIff`, `StallExample.OvertakenMessageStalls`).
* A HELLO never enters the acknowledgement queue, so nothing completes it: once sent, its retry timer takes the
  transport down, answered or not (`Retransmission.HelloIsFatal`, `HelloExample.AnsweredHelloIsFatal`).
* The receiver is meant to close the transport when a frame holds an unknown mandatory AVP. The arguments of the string test at
  `l2tp/transport.go:280` are the wrong way round, so it never does: the frame is only dropped
  (`ReceiveErrors.ReceiverNeverCloses`, `ReceiveErrors.SwappedTestIff`, `ReceiveErrors.UnknownMandatoryIsDropped`).
  The words of every error are in `ErrorTexts.dfy`.
* The message parser steps four bytes too far after each message, so it never reads two messages printed one after the
  other (`Messages.BackToBackIff`).
* A session that fails while it is being set up is announced after it has closed (`ControlSafety.SessionLeftUpIff`,
  `ControlExamples.SessionLeftUpForGood`).
* Sessions are unlinked by key, whoever holds the key by then (`IndexAgreement.MapsAgreeIff`,
  `ControlExamples.ReusedNameBreaksAgreement`, `ControlExamples.LateCloseBreaksAgreement`).
* The scaled retry timeout overflows (`RetryTimeouts.ScaleExactIff`).

## Model

| member | source | states |
|---|---|---|
| SequenceNumbers.CompareIsCentred | l2tp/transport.go:117-130 | for all unbounded counters, the sixteen-bit comparison is the sign of their difference reduced to [-0x8000, 0x8000) |
| SequenceNumbers.CompareRefines | l2tp/transport.go:117-130 | within half the range the comparison orders the unbounded counters |
| SequenceNumbers.IncrementCounts | l2tp/transport.go:110-114 | incrementing the wire number is the wire number of the next counter, across the wrap |
| SequenceNumbers.CompareAntisymmetric | l2tp/transport.go:117-130 | swapping the arguments negates the comparison except at distance exactly 0x8000 |
| SlowStart.StepBounded | l2tp/transport.go:132-170 | every operation keeps 1 <= cwnd <= W, thresh <= W, nacks < W, ntx <= W, and no uint16 wraps |
| SlowStart.WindowBounded | l2tp/transport.go:132-170 | the same over any interleaving of sends, acks and retransmissions |
| SlowStart.OnlyAcksGrow | l2tp/transport.go:144-163 | with sends interleaved anyhow, the congestion state depends only on the number of acks |
| SlowStart.AvoidanceLaw | l2tp/transport.go:144-163 | congestion avoidance goes from window a to b after exactly (b(b-1)-a(a-1))/2 acks, not before |
| SlowStart.SlowStartLaw | l2tp/transport.go:148-152 | below the threshold the window grows by the number of acks |
| SlowStart.Recovery | l2tp/transport.go:144-170 | after a retransmission, cwnd/2 - 1 acks bring the window to half its old size, the new threshold |
| Transports.Transport.constructor | l2tp/transport.go:693-745 | a new transport is the fresh endpoint: empty queues, window 1, threshold W |
| Transports.Transport.TxComplete | l2tp/transport.go:204-218 | a message is reported once; a HELLO clears helloInFlight and reports nothing |
| Transports.Transport.SendMessage | l2tp/transport.go:486-500 | a first send takes and advances Ns unless it is an Ack, a retransmission does neither; either stops the acknowledgement timer, restarts the HELLO timer and arms the message's retry timer with the scaled timeout |
| Transports.Transport.RetransmitMessage | l2tp/transport.go:502-513 | fails at the retry limit or on a write error, otherwise resends and collapses the window |
| Transports.Transport.ProcessTxQueue | l2tp/transport.go:515-538 | the loop sends from the front while the window is open and stops at the first write error |
| Transports.Transport.ProcessAckQueue | l2tp/transport.go:540-552 | the loop over i, which reads only the head, pops acknowledged heads until one is not; found iff the first was |
| Transports.Transport.Down | l2tp/transport.go:579-611 | both queues are flushed, transmit queue first, every message not yet completed completed with an error, the timers stopped; a live transport's invariant is kept |
| TransportAnswers.DownIs | l2tp/transport.go:579-611 | on every state the completions are those of the transmit queue in order, then those of the acknowledgement queue in order, each message not yet reported failing once; nothing else changes but queues, timers and life |
| Transports.Transport.Send | l2tp/transport.go:756-770 | only a message that validates reaches the sender |
| Transports.Transport.OnSendRequest | l2tp/transport.go:305-320 | the transmission arm computes OnSubmit and keeps the invariant on every message fit to send |
| TransportAnswers.SendTimers | l2tp/transport.go:486-492 | what a sent message leaves on every state: the acknowledgement timer stopped, the HELLO put off iff there is one |
| TransportAnswers.SubmitWaits | l2tp/transport.go:515-538 | behind a closed window a message only joins the end of the queue |
| Transports.Transport.OnNrInd | l2tp/transport.go:323-353 | the Nr arm keeps the invariant and computes OnNrs: the transmit queue is processed after each Nr that acknowledged something, the acknowledgement timer armed for a message to acknowledge, the HELLO timer restarted |
| TransportAnswers.NrsSetTimers | l2tp/transport.go:343-353 | with nothing outstanding, numbers set the acknowledgement timer iff some message with them is not of type 20, and put off the HELLO |
| TransportAnswers.NrsInTurn | l2tp/transport.go:333-341 | with nothing waiting to be sent, every number of a frame is used, one after the other |
| TransportAnswers.HeadAckedIff | l2tp/transport.go:540-552 | an Nr acknowledges the oldest message iff it is 1 to 0x7fff ahead of its Ns |
| Transports.Transport.OnRetryRequest | l2tp/transport.go:356-375 | the retry arm updates the message in place through its alias in the queue, skips completed messages, handles the HELLO by the same code, and keeps the invariant |
| TransportAnswers.RetryWrites | l2tp/transport.go:356-375 | on every state: below the limit exactly one frame, the same but for the current Nr, with the next scaled wait, and the window falls to one; at the limit or on a failed write the transport goes down |
| TransportAnswers.HelloRetryWrites | l2tp/transport.go:356-375 | the same for the HELLO, which stays out of the queues |
| Transports.Transport.OnHelloTimeout | l2tp/transport.go:378-386 | at most one HELLO in flight; a failure takes the transport down |
| Transports.Transport.SendHelloMessage | l2tp/transport.go:628-651 | the HELLO takes a sequence number and enters no queue |
| TransportAnswers.HelloTimerWrites | l2tp/transport.go:628-651 | on every state: with a HELLO out nothing happens; otherwise one is written to tunnel ID peer and session 0 (v3: to the control connection ID), type 6, 20 bytes, under the current Ns and Nr, Ns advances and its retry timer is armed; or the transport goes down |
| Transports.Transport.OnAckTimeout | l2tp/transport.go:389-394 | an explicit acknowledgement is written under the current Ns without using it up |
| TransportAnswers.AckTimerWrites | l2tp/transport.go:657-676 | on every state an acknowledgement is written to tunnel ID peer and session 0 (v3: to the control connection ID), 12 bytes in v2, under the current Ns and Nr, and no number used; or the transport goes down |
| Transports.Transport.RecvFrame | l2tp/transport.go:399-415 | a frame that does not parse, or with any Nr beyond Ns+1, is dropped whole, with the words of its error; the inputs on which the program panics are told apart |
| TransportAnswers.RecvDropsIff | l2tp/transport.go:405-412 | a frame that parses with readable types is dropped iff some Nr in it is 1 to 0x7fff ahead of Ns + 1, and otherwise taken whole |
| TransportAnswers.RecvPanicsIff | l2tp/transport.go:398-416 | the receiver panics iff the parser does or an unreadable type has to be read: that of the first message whose Nr is beyond, or any if none is |
| Transports.Transport.OnFrame | l2tp/transport.go:244-296 | a frame is cut at 4096 bytes; its messages are queued in order and their Nr values collected in order; the receiver ends if its test of the error's words succeeds; the invariant is kept |
| ReceiveErrors.ReceiverNeverCloses | l2tp/transport.go:271-284 | for every frame and endpoint the test fails, so the receiver never ends by it |
| ReceiveErrors.SwappedTestIff | l2tp/transport.go:276-283 | for every frame and endpoint the test with its arguments swapped succeeds iff the parser met an unknown mandatory AVP |
| ReceiveErrors.UnknownMandatoryIsDropped | l2tp/transport.go:271-284 | any message in which an unknown mandatory AVP follows AVPs the parser can use or skip is refused for it, and endpoint and receiver go on as they were |
| Transports.Transport.DequeueRxMessage | l2tp/transport.go:418-427 | the loop finds a message iff the head is in sequence or stale |
| Transports.Transport.ProcessRxQueue | l2tp/transport.go:429-454 | heads are taken until one cannot be; those in sequence and not Ack are accepted and advance Nr |
| TransportAnswers.RxTakes | l2tp/transport.go:418-454 | one queued message, by how far its Ns is ahead of Nr: 0 is accepted unless an acknowledgement, 0x8000 and more is dropped, the rest stays |
| SenderSteps.ProcessTxInv | l2tp/transport.go:515-538 | draining keeps the sender invariant and leaves nothing waiting behind an open window |
| AckSteps.ProcessAckInv | l2tp/transport.go:540-552 | acknowledgement keeps the sender invariant and removes a run from the head of the queue |
| SenderArms.SubmitInv | l2tp/transport.go:305-320 | the transmission arm keeps the invariant and touches nothing of the receive half |
| AckSteps.NrsInv | l2tp/transport.go:323-341 | the Nr arm keeps the invariant for any list of Nr values |
| SenderArms.RetryInv | l2tp/transport.go:356-375 | the retry arm keeps the invariant; the endpoint survives iff the write succeeds below the retry limit |
| SenderArms.HelloTimerInv | l2tp/transport.go:378-386 | the HELLO arm keeps the invariant |
| SenderArms.AckTimerInv | l2tp/transport.go:389-394 | the explicit-ack arm keeps the invariant |
| SenderSteps.DownFromLive | l2tp/transport.go:579-611 | going down completes every submitted message exactly once, acknowledged ones first and in order |
| Delivery.InOrderDelivery | l2tp/transport.go:418-454 | in every run what a side accepts is a prefix of what its peer submitted (with the HELLO in its place): in order, no duplicates, no gaps |
| Delivery.AckSoundness | l2tp/transport.go:540-552 | in every run a send completed without error had been accepted by the peer, with that content |
| Delivery.AcksExact | l2tp/transport.go:540-552 | in every reachable state with W below 0x8000 (counting a HELLO sent), an Nr within half the range completes exactly the outstanding messages before it, in order, and found iff there are any |
| Delivery.ReceiverDecisions | l2tp/transport.go:185-252 | in every reachable state with the peer's W below 0x8000 (counting a HELLO sent), a frame within half the range gets past the parser and the Nr check iff it fits the 4096-byte receive buffer; its message is in sequence iff it is the next number, and stale iff it is before |
| Delivery.ExactlyOnceCompletion | l2tp/transport.go:301-397 | in every run each submitted message is acknowledged, outstanding or waiting; completions are unique and successful ones come in submission order; after going down all are completed |
| Delivery.NoWindowStall | l2tp/transport.go:515-538 | in every live state a waiting message implies ntx >= cwnd >= 1 and so an outstanding message with retries left |
| Delivery.OutstandingContiguous | l2tp/transport.go:486-552 | without a HELLO the Ns values outstanding are, in order, the ntx numbers ending just before ns, modulo 2^16, and ntx <= W |
| Network.AliasedFrameIsAccepted | l2tp/transport.go:429-454 | the exclusion is needed: a message accepted before is accepted again whole cycles later |
| Network.OutdatedNrCompletes | l2tp/transport.go:540-552 | the exclusion is needed: an Nr outdated by less than a cycle completes the oldest outstanding message |
| Retransmission.RetransmissionBound | l2tp/transport.go:456-513 | in every run each number is written at most MaxRetries times, always with the Ns and content of the first time; an outstanding message exactly nretries + 1 times |
| Retransmission.UnackedMessageFails | l2tp/transport.go:356-375 | in every run a retry takes the transport down iff the message was written MaxRetries times; it then completes with an error, and the timers armed for it on the way add up to RetryTimeout*(2^MaxRetries-1) iff the last wait fits int64 |
| RetryTimeouts.ScaleExactIff | l2tp/transport.go:482-484 | for every timeout, negative ones included, the scaled timeout is exact iff it fits int64 |
| RetryTimeouts.WaitedExact | l2tp/transport.go:482-500 | the n-th firing comes at RetryTimeout*(2^n-1) iff the last wait fits int64, and never later for a positive timeout |
| RetryTimeouts.TimeoutOverflows | l2tp/transport.go:482-484 | with a timeout of one second the 34th retry is armed with a negative duration |
| Retransmission.HelloIsFatal | l2tp/transport.go:628-655 | in every run, after MaxRetries firings of the HELLO's timer the transport is down, whatever was acknowledged; until then the HELLO stays in flight |
| Retransmission.HelloRetryFails | l2tp/transport.go:356-375 | in every run a firing of the HELLO's timer takes the transport down iff the HELLO was written MaxRetries times |
| HelloExample.AnsweredHelloIsFatal | l2tp/transport.go:628-655 | for any configurations with keepalives, a run of the program: the peer accepts and acknowledges the HELLO, the acknowledgement is taken, and the HELLO's timer alone takes the transport down |
| ReceiveStall.FindsHandleableIff | l2tp/transport.go:417-427 | the search keeps its comment's promise iff the queue is empty, its head is not ahead, or nothing in it can be handled |
| ReceiveStall.StallIsPermanent | l2tp/transport.go:418-454 | in every run a stalled receiver accepts nothing more |
| ReceiveStall.StalledIff | l2tp/transport.go:418-454 | in every run in which a side receives frames within half the range, it is stalled iff some frame arrived ahead of its turn |
| StallExample.OvertakenMessageStalls | l2tp/transport.go:418-454 | for any configurations with a window of at least two and any three messages whose first and third fit the receive buffer, a run of the program in which the network loses the second: the receiver is stalled, both ends alive, the second and third not accepted |
| Avps.HeaderRoundTrip | l2tp/avp.go:665-698 | flags, vendor and type are read back from a packed header; the length iff it fits ten bits |
| Avps.MasksAreArithmetic | l2tp/avp.go:665-698 | the bit masks of the header are the quotients and remainders of the model |
| WireFormat.BigEndian | l2tp/msg.go:442-459 | numbers are written most significant byte first |
| WireFormat.AvpLayout | l2tp/avp.go:665-698 | an AVP is M bit 0x8000, H bit 0x4000 and length, vendor, type and value, in that order |
| WireFormat.MessageLayoutV2 | l2tp/msg.go:442-459 | a v2 message is flags and version, length, tunnel ID, session ID, Ns, Nr and AVPs, in that order |
| WireFormat.MessageLayoutV3 | l2tp/msg.go:520-537 | a v3 message has a 32-bit control connection ID in place of the two |
| Avps.FindAvpInfo | l2tp/avp.go:732-739 | the search of the table finds the row of the type and vendor, or there is none |
| Avps.TableIs | l2tp/avp.go:100-177 | the 76 rows of the table, written out, are the mandatory bits and data types used elsewhere |
| Avps.ParseAvpBuffer | l2tp/avp.go:743-795 | the cursor loop computes the AVP parser on every buffer |
| WireFormat.FrontAvp | l2tp/avp.go:743-795 | for every buffer, what its first AVP leads to by its length, vendor and type: skipped, taken, either refusal, or a panic |
| WireFormat.AvpEnds | l2tp/avp.go:743-795 | fewer than six bytes are ignored, and no AVP at all is refused |
| Avps.TilingParses | l2tp/avp.go:743-795 | any tiling of a buffer by recognised AVPs and skipped headers, up to a residue under 6 bytes, parses to exactly its AVPs |
| Avps.ParseTiles | l2tp/avp.go:743-795 | every accepted buffer has such a tiling: payloads in bounds, disjoint, consecutive; printing the AVPs gives back the buffer before the residue iff no header was skipped |
| Avps.MandatoryRefused | l2tp/avp.go:755-763 | a buffer in which an unknown mandatory AVP follows a tiling is refused for it, whatever comes after |
| Avps.RefusedForMandatory | l2tp/avp.go:755-763 | conversely every buffer refused for that reason has that form |
| Avps.ParseAvpsBytes | l2tp/avp.go:743-795 | parsing undoes encoding on lists of well-formed AVPs |
| Avps.ParsedIsWellFormed | l2tp/avp.go:743-795 | every parsed AVP is well formed and no bytes are invented |
| Avps.AvpsLengthBytes | l2tp/avp.go:1047-1053 | the loop adds up the Length fields; the sum is the length of the encoding if every AVP is well formed |
| Payloads.ResultCodeRoundTrip | l2tp/avp.go:797-814 | decoding undoes encoding on every result code; encoding undoes decoding iff the error code is spelled out |
| Payloads.NewAvpDecodes | l2tp/avp.go:864-885 | an AVP is built iff type and value match the table; it decodes to the value and is well formed iff the payload is at most 1017 bytes |
| WireFormat.DecodesIff | l2tp/avp.go:896-983 | for every data type and payload, whether it decodes and to what |
| WireFormat.ReadersIff | l2tp/avp.go:985-1045 | each typed reader accepts exactly its own data type and length |
| WireFormat.LookupReadsFirst | l2tp/avp.go:1068-1146 | each lookup reads the first AVP with that vendor and type, however many follow, and fails if there is none |
| Payloads.FindAvp | l2tp/avp.go:1057-1066 | the first AVP of that vendor and type, or none is present |
| Payloads.SearchAvp | l2tp/avp.go:1057-1066 | the loop computes that search |
| Messages.ParseMessageBuffer | l2tp/msg.go:549-598 | the loop computes the message parser on every buffer |
| WireFormat.FrontMessage | l2tp/msg.go:549-598 | for every buffer of up to 0xfffb bytes, what the version and length at its front lead to: the message with its fields, or which refusal |
| WireFormat.TypeIff | l2tp/msg.go:400-422 | the type of every parsed message, and when it cannot be read |
| Messages.RoundTrip | l2tp/msg.go:442-459 | for v2 and v3, ZLBs included, parsing the printed message gives exactly it iff it is well formed |
| Messages.PaddedRoundTrip | l2tp/msg.go:549-598 | the layout the parser does read: four arbitrary bytes after every message but the last, less than a header and four after that |
| Messages.BackToBackIff | l2tp/msg.go:549-598 | well-formed messages printed one after the other are read back iff there is at most one |
| Messages.TruncatedIsRefused | l2tp/msg.go:549-598 | a message cut off at the end is refused |
| Validation.ValidateAvps | l2tp/msg.go:224-261 | succeeds iff every AVP is tolerated by the spec and decodes, and every compulsory one is present |
| Validation.Validate | l2tp/msg.go:461-467 | the same through the spec of the message's type |
| Validation.ValidatesV2Iff | l2tp/msg.go:58-195 | for each of the nine v2 messages, by type numbers: it validates iff all its compulsory AVPs are there, all AVPs of its lists decode and no other has the M bit; every other type is refused |
| Validation.ValidatesV3Iff | l2tp/msg.go:197-212 | the only v3 message that validates is a HELLO, with its two optional AVPs |
| Validation.AcksDoNotValidate | l2tp/msg.go:173-195 | no acknowledgement validates, so none enters the transmit queue |
| Validation.CompulsoryIsFound | l2tp/msg.go:224-261 | a compulsory AVP of an acceptable parsed list is found and decodes |
| Validation.ParsedAndValidatedLookup | l2tp/l2tp_dynamic_tunnel.go:366-374 | for any bytes, a parsed message that validates as SCCRP, ICRP or CDN yields its tunnel ID, session ID or result code: the branches for a missing one are unreachable |
| Builders.BuildV2Msg | l2tp/msg.go:619-633 | the loop computes the builder: append AVPs and their lengths, or the first error |
| Builders.BuilderCorrect | l2tp/msg.go:635-826 | every newV2 builder succeeds iff its IDs fit 16 bits; the message has the IDs and type asked for and validates; it survives the wire iff its text fits, and then Len is its length |
| Builders.BuiltMessageIs | l2tp/msg.go:635-826 | for each of the nine builders the header field by field (flags, tunnel ID, session ID, Ns, Nr), the type number, the AVP types in order and their M bits |
| Builders.BuiltValuesAreRead | l2tp/msg.go:635-826 | every value built in is the one the peer's lookup returns: protocol version, host name, framing, tunnel and session IDs, call serial, connect speed and result code |
| Builders.BuiltIsShort | l2tp/msg.go:635-826 | every built message whose text fits its AVP is at most 1069 bytes long, so it fits the peer's receive buffer |
| Fsm.Machine.HandleEvent | l2tp/fsm.go:20-35 | the nested loops find the first matching row and move the state before the callback runs |
| Fsm.TheRow | l2tp/fsm.go:20-35 | in a deterministic table the row found is the row that matches |
| Sessions.SessionTableIs | l2tp/l2tp_dynamic_session.go:449-473 | the session table is the transition function used below |
| Tunnels.TunnelTableIs | l2tp/l2tp_dynamic_tunnel.go:563-603 | the tunnel table is the transition function used below |
| DynamicSessions.DynamicSession.HandleEvent | l2tp/l2tp_dynamic_session.go:80-93 | moves, runs the callback, closes without a transition; nested events terminate by rank |
| DynamicSessions.DynamicSession.HandleV2Msg | l2tp/l2tp_dynamic_session.go:214-268 | the validation, and the loop over the event map that still runs after a failed validation |
| SessionAnswers.AnswersValid | l2tp/l2tp_dynamic_session.go:449-473 | for every live state and each of the nine message types, the new state of the session, what it sends with which result code, and what the user is told |
| SessionAnswers.AnswersOthers | l2tp/l2tp_dynamic_session.go:214-240 | an invalid message is answered with a CDN of result 2, error 3; one for another session is not looked at |
| SessionAnswers.AnswersRequests | l2tp/l2tp_dynamic_session.go:56-77 | the tunnel coming up, the user's close and a kill, for every live state |
| DynamicSessions.DynamicSession.RunTurn | l2tp/l2tp_dynamic_session.go:56-77 | one turn of the loop keeps the session's invariant (wire order, paired notices), submits at most one message, under the peer tunnel ID, and keeps its keys |
| DynamicTunnels.DynamicTunnel.HandleEvent | l2tp/l2tp_dynamic_tunnel.go:173-187 | moves, runs the callback, closes without a transition; nested events terminate by rank |
| DynamicTunnels.DynamicTunnel.HandleV2Msg | l2tp/l2tp_dynamic_tunnel.go:283-342 | the tunnel-ID test, the validation, and the event that is still raised after a failed one |
| TunnelAnswers.AnswersValid | l2tp/l2tp_dynamic_tunnel.go:312-332 | for both live states and each of the nine message types, the new state of the tunnel, what it sends with which result code, and what the user is told; a HELLO changes nothing |
| TunnelAnswers.AnswersOthers | l2tp/l2tp_dynamic_tunnel.go:283-308 | an invalid message is answered with a StopCCN of result 2, error 3; one for another tunnel is not looked at |
| TunnelAnswers.AnswersWhenShut | l2tp/l2tp_dynamic_tunnel.go:312-332 | the same for a closed tunnel whose loop has not ended: what makes an open tunnel send halts this one, the rest leaves it closed |
| TunnelAnswers.AnswersRequests | l2tp/l2tp_dynamic_tunnel.go:140-162 | start, a new session, the user's close and a failed transport |
| DynamicTunnels.DynamicTunnel.MapMessage | l2tp/l2tp_dynamic_tunnel.go:312-332 | the loop over the event map finds the event of the message's type |
| DynamicTunnels.DynamicTunnel.RunTurn | l2tp/l2tp_dynamic_tunnel.go:140-162 | one turn of the loop keeps the tunnel's invariant (wire order, paired notices) and moves it only onward |
| SessionSafety.TurnOk | l2tp/l2tp_dynamic_session.go:56-77 | every turn of a running session keeps wire order, pairing of notices and the state's obligations, and submits at most one message, under the peer tunnel ID |
| SessionSafety.TurnKeeps | l2tp/l2tp_dynamic_session.go:449-473 | name and session ID are kept, the state's rank never rises, and only the tunnel-open event starts the call |
| SessionSafety.DeadAbsorbs | l2tp/l2tp_dynamic_session.go:449-473 | no event changes a dead session |
| SessionSafety.InvalidMessageKills | l2tp/l2tp_dynamic_session.go:229-258 | a message that fails validation leaves the session dead, announces nothing and sends at most a CDN |
| SessionSafety.TurnSetsUp | l2tp/l2tp_dynamic_session.go:300-316 | only a valid ICRP for the session that was waited for sets it up, and gives it the peer session ID in it |
| TunnelSafety.TunnelTurnOk | l2tp/l2tp_dynamic_tunnel.go:140-162 | every turn of a ready tunnel keeps wire order, pairing of notices and the state's obligations, and moves it only onward |
| TunnelSafety.FinishCloseOk | l2tp/l2tp_dynamic_tunnel.go:512-534 | when closing completes every Up has its Down |
| TunnelSafety.TunnelDeadAbsorbs | l2tp/l2tp_dynamic_tunnel.go:563-603 | no event changes a dead, closing tunnel |
| TunnelSafety.InvalidMessageStops | l2tp/l2tp_dynamic_tunnel.go:298-332 | a message that fails validation leaves the tunnel dead, announces nothing and sends at most a StopCCN |
| TunnelSafety.TurnComesUp | l2tp/l2tp_dynamic_tunnel.go:362-423 | a tunnel is announced only by the turn that takes a valid SCCRP while waiting for one, under the tunnel ID in it |
| ControlSafety.WireOrder | l2tp/l2tp_dynamic_tunnel.go:344-447 | in every run the tunnel sends a prefix of SCCRQ, optional SCCCN, optional StopCCN, and each session nothing, ICRQ, ICRQ CDN, ICRQ ICCN or ICRQ ICCN CDN; nothing follows a failed message |
| ControlSafety.SessionsFollowHandshake | l2tp/l2tp_dynamic_session.go:291-298 | in every run a session message is given to the transport only after the SCCCN was acknowledged, is valid, and carries the tunnel ID of an earlier valid SCCRP |
| ControlSafety.NoticesPair | l2tp/l2tp_dynamic_tunnel.go:501-539 | in every run Up and Down are told at most once each, Down after Up; equal for a closed tunnel; a session's only after its tunnel's Up |
| ControlSafety.SessionLeftUpIff | l2tp/l2tp_dynamic_session.go:300-364 | a session that has ended was told Down as often as Up iff it was never set up or ICCN, data plane and interface name all succeeded |
| ControlExamples.SessionLeftUpForGood | l2tp/l2tp_dynamic_session.go:343-363 | for any tunnel, IDs and name, a run in which the call is answered, the interface name is not to be had, and the closed session was last told Up |
| ControlSafety.InvalidNeverEstablishes | l2tp/l2tp_dynamic_tunnel.go:296-308 | in every run a message that fails validation establishes neither tunnel nor session |
| Forwarding.SessionMessageIsForwarded | l2tp/l2tp_dynamic_tunnel.go:480-493 | in every reachable state a valid ICRQ, ICRP, ICCN or CDN for a tunnel that is up goes to the session filed under its session ID and to no other; under an unknown ID nothing changes |
| Forwarding.NothingLostOnTheWay | l2tp/l2tp_dynamic_tunnel.go:480-493 | over any stretch of any run the messages a session takes are those passed to it, in order and once each; the rest are in its inbox |
| Forwarding.InboxIsOwn | l2tp/l2tp_dynamic_tunnel.go:480-493 | in every run every message in an inbox is a valid session message with that session's ID |
| Forwarding.HelloChangesNothing | l2tp/l2tp_dynamic_tunnel.go:320-328 | in every reachable state a HELLO leaves tunnel and sessions as they were |
| Forwarding.AddedSession | l2tp/l2tp_dynamic_tunnel.go:469-478 | in every reachable state a new session is filed under both keys, and told to open iff the tunnel is up; in a dead tunnel neither |
| Forwarding.SessionsAreTold | l2tp/l2tp_dynamic_tunnel.go:408-415 | in every reachable state the step that brings the tunnel up tells exactly the sessions in the name map to open, the step that begins closing kills exactly those, and no other step does either |
| Forwarding.CallIsSent | l2tp/l2tp_dynamic_session.go:270-298 | in every reachable state, whether a session's ICRQ is sent and with what result, refused, or never returns, by what the tunnel is doing |
| PeerIds.IccnCarriesPeersId | l2tp/l2tp_dynamic_session.go:300-391 | in every run every ICCN, and every CDN after the reply, carries in its header the session ID of a valid ICRP the session took earlier |
| SessionIndex.BaseTunnel.FindSession | l2tp/l2tp.go:792-804 | a session is found iff its key is in the map; filed under its own key it is the one asked for, and in agreeing maps it is found by the other key too |
| SessionIndex.BaseTunnel.AllSessions | l2tp/l2tp.go:806-813 | every linked session exactly once |
| SessionIndex.BaseTunnel.CloseAllSessions | l2tp/l2tp.go:818-832 | returns every session known by name exactly once and removes their entries |
| SessionIndex.DrainEmpties | l2tp/l2tp.go:818-832 | draining agreeing maps empties both |
| SessionIndex.LinkAgrees | l2tp/l2tp.go:774-779 | linking under two free keys keeps the maps in agreement |
| SessionIndex.UnlinkAgreesIff | l2tp/l2tp.go:781-786 | unlinking keeps the maps in agreement iff both keys lead to the same session or to none |
| IndexAgreement.OpenedOnceKilledOnce | l2tp/l2tp_dynamic_tunnel.go:409-413 | in every run a session is told to open at most once, exactly once if linked while the tunnel is up, and killed at most once |
| IndexAgreement.ClosingKillsLinked | l2tp/l2tp_dynamic_tunnel.go:501-510 | in every run the step that begins closing kills each linked session once and no other, and empties the maps if they agreed |
| IndexAgreement.SessionsEndFirst | l2tp/l2tp_dynamic_tunnel.go:501-518 | in every run a tunnel has finished closing only if every session it killed has ended |
| IndexAgreement.MapsAgree | l2tp/l2tp.go:774-832 | in every run in which no key of a session that has not ended is reused, and no session is closed by the user while another that has not ended holds a key of its, the two maps hold the same sessions, none of them ended |
| IndexAgreement.MapsAgreeIff | l2tp/l2tp.go:774-832 | a run keeps the maps in agreement iff every session that left them did so with both its keys leading to one session or both to none |
| ControlExamples.ReusedNameBreaksAgreement | l2tp/l2tp.go:781-786 | for any tunnel and name, a run: the user closes a session, adds another under its name, the first one ends, and the maps disagree |
| ControlExamples.LateCloseBreaksAgreement | l2tp/l2tp_dynamic_session.go:27-31 | for any tunnel and name, a run: a session ends, another takes its name, the user closes the first, and the maps disagree |
| EndToEnd.SentIsSeen | l2tp/transport.go:756-770 | in every run of control plane, transport and network, a send of tunnel or session that is recorded as successful was accepted by the peer's transport, with that content |
| EndToEnd.SeenInOrder | l2tp/l2tp_dynamic_tunnel.go:153-170 | in every such run the peer's transport accepts one sender's messages in the order in which they were sent |
| EndToEnd.SessionSeenAfterHandshake | l2tp/l2tp_dynamic_tunnel.go:382-413 | in every such run the peer's transport accepts a session's messages after the SCCCN of its tunnel |
| EndToEnd.UpOnPeersWord | l2tp/l2tp_dynamic_tunnel.go:362-423 | in every such run a tunnel was announced only if the peer's transport sent a valid SCCRP, and its peer ID is the one in it |
| EndToEnd.SessionUpOnPeersWord | l2tp/l2tp_dynamic_session.go:300-364 | in every such run a session was announced only if the peer's transport sent a valid ICRP for its ID, and its peer ID is the one in it |
| EndToEndExample.EverythingComesUp | l2tp/l2tp_dynamic_tunnel.go:344-423 | for any transport and tunnel configuration whose host name fits, and any IDs, a run in which every message of both handshakes is sent, accepted, acknowledged and recorded, and tunnel and session are announced |

## Left out

- Transports.Transport.Down: does not model closing the receiver and draining the receive and Nr channels first; a transport that is down takes no further step.
- Transports.Transport.ProcessRxQueue: a message counts as accepted once Nr has moved past it; the program passes it to its reader after that, so an acknowledgement may leave first, and a transport that goes down in between may drop it.
- Transports.Transport.OnFrame: the drop of the whole queue when the receiver goroutine ends is not modelled; a transport that is down takes no further step.
- DynamicTunnels.DynamicTunnel.HandleEvent: linking, starting and forwarding to sessions leave the object's own fields alone; what they do to the sessions is in `Connection.dfy`, on values and not on session objects.
- Connections: the session loops exchange messages with the tunnel loop through inboxes instead of rendezvous channels, and each loop turn is one step; the two-step closing of a tunnel is kept apart. A session's turn whose message the tunnel took before it began to close may still end after that, and the model lets any session's turn claim this.
- EndToEnd: only messages whose text fits its AVP are sent, the transport being modelled for well-formed messages; the peer is any user of the same transport.
- Sockets, netlink, the kernel data plane and clocks: sends, data-plane calls and timers are answered by the environment.
- `ProtocolVersion3Fallback`, which the transport treats as version 3, and version 3 tunnels, which the dynamic tunnel refuses.
- `sanitiseConfig`: the configuration is taken as sanitised, with a window and a retry limit of at least one.
- The tunnel indexes of `Context` in `l2tp/l2tp.go`, which repeat the session indexes; ID allocation and address resolution.
- AVP hiding, which the program does not implement, and the string forms of messages, AVPs and result codes.
- The text of error messages in StopCCN and CDN, which is any byte string.
- `l2tp/l2tp_static.go`, `l2tp/l2tp_quiescent.go`, `config/` and `cmd/`: set-up and glue without a protocol of their own.
