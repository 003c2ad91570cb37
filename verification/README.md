# A Dafny model of the gsip SIP stack

This project models three parts of gsip and proves what they keep over whole runs:

* **Transactions** (`transaction/`): the four transition tables of section 17 of RFC 3261 with their actions and timers,
  the keys that match messages to transactions, the transaction pool, and the layer that routes every message.
* **Framing** (`sip/parser.go`, `sip/parserbuffer.go`, `utils/elasticchan.go`): the loop that cuts a byte stream into
  messages, by Content-Length or by a side queue of datagram lengths, and the elastic channel that carries that queue.
* **Parsers and printers** (`sip/parser.go`, `sip/headers.go`): parameters, SIP URIs, Via lists, Route lists, and the
  ordered header store.

## How the model is built

Code that changes objects is a class whose methods follow the source statement by statement: `ServerTx`, `ClientTx`,
`TxLayer`, `Headers`, `HeaderParams`, `ParserBuffer`, `Parser`, `ElasticChan`. The contract of each method equates the new
state, as a value, with a function of the old one. The loops of the parsers are methods with invariants. The functions on
values (`ServerSteps`, `ClientSteps`, `LayerSteps`, `HeaderStore`, `Framing`, `Params`, ...) carry the theorems about runs.

Conventions of the model:

* `fsm.Spin` looks up the row of the current state. Without a row it is an error and nothing changes. Otherwise the action
  is performed, the state becomes the row's, and the input that the action returns is looked up next. The nested `Spin` of
  a failed resend or ACK is such a next input.
* `Receive`, `SendResponse`, a timer callback and one handler of the layer are atomic steps. `Timer.Stop` succeeds. A timer
  that is due runs before time passes its instant. Times are in milliseconds.
* A transport send is a step with an outcome: every operation that can send takes a flag that says whether it succeeds.
* Go's strings are byte strings: a character below 256 is a byte. Go's nil is `None`.
* A run-time panic is an outcome of its own (`Crash`, `KeyCrash`, `Crashed`, the counter `panics`).
* What leaves a transaction is recorded in order in its history, which is what the theorems about runs speak of.
* A stall is a place where a hundred empty writes follow each other.
* All writes of a parser run are in the pipe from the start; the end of the pipe is its closing. A statement about a
  stream `d + t` holds for every `t`, so also for bytes that arrive later.

## Where the code and its documents disagree

The model follows the code. Each of these is a lemma below, with the exact condition where one exists.

* A second ACK in Confirmed leads to Terminated without closing anything (`transaction/server_tx.go:252`), where section
  17.2.1 of RFC 3261 absorbs it: the transaction then stays open for ever (`TerminatedMeansClosed`).
* `SendResponse` stores the response before the table is consulted (`transaction/server_tx.go:166-167`), so a response
  after the final one is what every later resend carries, by timer G too: `WireTraceExactly`, `LateProvisionalIsSent`,
  `LateProvisionalByTimer`.
* A failed 2xx, an ACK before the final response and timer I after a second ACK find no row (`SpinFailsExactly`).
* Timer I waits T4 and timer J 64*T1 on reliable transports too (`transaction/server_tx.go:654`,
  `transaction/server_tx.go:569`), where section 17.2 of RFC 3261 wants zero: the bounds in `FinalResponseTiming` and
  `NonInviteLife` have them.
* A 1xx stops timer A (`transaction/client_tx.go:496-501`), so the resend row of the non-INVITE state Proceeding
  (`transaction/client_tx.go:297`) is dead, where section 17.1.2.2 of RFC 3261 resends every T2; and an INVITE transaction
  in Proceeding never times out (`InviteWaitsForever`).
* Reporting a failed first send dereferences a missing response; the panic is recovered and nothing is reported
  (`transaction/client_tx.go:379-398`): `FailedInit`. The layer leaves such a transaction in its pool
  (`transaction/transaction.go:173-178`): `FinishedLeaves`, `FailedRequestStays`.
* The non-INVITE server table sends a CANCEL to a state that it does not define (`transaction/server_tx.go:303`):
  `CancelStrandsNonInvite`, and `ConfirmedUnreachable` and `MismatchedCancel` for when the layer lets it happen.
* `ReplaceHeader` tests for a missing name after storing it (`sip/headers.go:168-174`): `OperationKeeps`,
  `ReplacedMissing`.
* `NextLine` reads `\r` and the next byte as a pair (`sip/parserbuffer.go:54-67`), so `\r\r\n` ends no line while
  `getBodyLength` finds a double CRLF behind it: `LineExactly`, `IsolatedExactly`.
* A misaligned datagram puts the queue of lengths out of step with the stream. A later refused start line can
  then be longer than the datagram whose entry is popped, and the negative size of the skip panics
  (`sip/parser.go:328-333`, `sip/parserbuffer.go:83`): `ThreeDatagramsCrash`, `MisalignedCrashes`, `RunNeverCrashes`.
* A Via whose branch has no value panics in the key functions (`transaction/tx.go:115-118`): `PanicsExactly`.
* A section of an address list that is all white space, or a bracket that is never closed, panics
  (`sip/parser.go:1418-1446`): `ListCrashesExactly`.
* The reader of `NextLine` gives up after a hundred empty writes in a row, although more bytes would follow:
  `StallExactly`.
* Printing quotes a value only when it holds white space, and parsing refuses `=` in values and a quoted value in front of
  the end delimiter: `RoundTripExactly`, `UriRoundTripExactly`, `ViaRoundTripExactly`, `RouteRoundTripExactly`.

## Model

| member | source | states |
|---|---|---|
| ServerTransaction.ServerTx.constructor | transaction/server_tx.go:73-113 | the new transaction is in the first state of its method's table, with timer 1xx running for an INVITE only |
| ServerTransaction.ServerTx.Receive | transaction/server_tx.go:116-158 | timer 1xx is stopped, the request is stored and spun as the input its method decides; any other method is refused without spinning |
| ServerTransaction.ServerTx.SendResponse | transaction/server_tx.go:161-186 | a response to CANCEL bypasses the table; any other becomes the last response and is spun by its class |
| ServerTransaction.ServerTx.FireTimer | transaction/server_tx.go:98-108 | a timer callback spins its input; timer 1xx offers a 100 |
| ServerTransaction.ServerTx.Spin | transaction/server_tx.go:212-365 | the loop over an input and its follow-up inputs ends in the state that the two tables define; what the tables define is what the tableless specification of `ServerSpec` does, by `ServerRefines` |
| ServerTransaction.ServerTx.Perform | transaction/server_tx.go:455-631 | each action changes exactly its timers, history and channels and returns its follow-up input |
| ServerTransaction.ServerTx.StartRetransmission | transaction/server_tx.go:501-539 | timer G is started or doubled up to T2, timer H is started once |
| ServerTransaction.ServerTx.ActionConfirm | transaction/server_tx.go:634-676 | timers G and H give way to timer I and the ACK goes up unless the channels are closed |
| ServerTransaction.ServerTx.CloseAll | transaction/server_tx.go:404-448 | every set timer is stopped and the channels are closed, once |
| ServerRuns.SpinSettles | transaction/server_tx.go:212-365 | Spin ends after at most three inputs, one if the send succeeds, in the state of the row or in the end of a failed send |
| ServerRuns.InviteStep | transaction/server_tx.go:212-292 | every request, response, timer or wait keeps the invariant that ties state, timers and history of an INVITE transaction |
| ServerTheorems.WireTrace | transaction/server_tx.go:161-186 | in every run of either table, if the user is quiet after its final response, provisionals go out and then copies of one final, and a 2xx to INVITE goes out last and once |
| ServerTheorems.WireTraceExactly | transaction/server_tx.go:161-186 | in every run of either table, provisionals and then copies of one final go out if and only if no step is a repeated request or timer G in Completed while the last response offered is not the first final; a 2xx to INVITE then goes out last and once |
| ServerTheorems.ResendIsCopy | transaction/server_tx.go:161-186 | in either table, one step leaves the responses sent in order if and only if they were and the step is no resend in Completed while another response was offered behind the final one |
| ServerTheorems.LateProvisionalIsSent | transaction/server_tx.go:166-167 | in either table a 180 offered after a 486 is sent to the next repeated request |
| ServerTheorems.LateProvisionalByTimer | transaction/server_tx.go:501-517 | a 180 offered after a 486 to an INVITE is sent by timer G after 500 ms without any request |
| ServerTheorems.TerminatedMeansClosed | transaction/server_tx.go:246-275 | Terminated and closed agree at the end of a run if and only if no ACK came in Confirmed; after such an ACK no continuation closes the transaction |
| ServerTheorems.FinalResponseTiming | transaction/server_tx.go:480-542 | timer G resends exactly at the capped doubling instants, at most ten times, exactly ten (none if reliable) when timer H is due; lifetime after the final is at most 64*T1, plus T4 once confirmed |
| ServerTheorems.AutomaticTrying | transaction/server_tx.go:95-110 | the 100 is due exactly 200 ms after creation and exactly if no request arrived and no response but to a CANCEL was offered; time does not pass that instant otherwise, and the 100 is then the first response sent |
| ServerTheorems.CancelAnswered | transaction/server_tx.go:679-724 | a matched CANCEL gets 200 in Proceeding and 481 in Completed and Confirmed, is passed up only in Proceeding, and changes no state |
| ServerTheorems.AckPassedUp | transaction/server_tx.go:235-252 | an ACK goes up in Completed only, with the next state for each state |
| ServerTheorems.OneAckPassedUp | transaction/server_tx.go:634-676 | in every run at most one ACK is handed up through the transaction |
| ServerTheorems.SpinFailsExactly | transaction/server_tx.go:212-292 | an enabled step of an INVITE run finds no row if and only if it is an ACK before the final, a failed 2xx or timer I after a second ACK |
| ServerSpec.ServerRefines | transaction/server_tx.go:212-724 | for every method and transport, the transaction has the same legal runs as a specification without tables and timer objects, with its times in milliseconds and the code 100 written out, and at the end of each of them the same wire, answers, requests passed up, errors, closing, phase and instants of its timers |
| ServerWire.WireDetermined | transaction/server_tx.go:455-631 | in every run of either table the wire is exactly what the steps send, in order: the last offered response for each repeated request in Proceeding or Completed and for each timer G, each response offered in Trying or Proceeding, timer 1xx's 100, and nothing else |
| ServerWire.RequestAnswered | transaction/server_tx.go:220-233 | after every run, a received request of the transaction's own method is answered once with the last offered response in Proceeding and Completed, if there is one, and not at all in the other states |
| ServerWire.OfferAnswered | transaction/server_tx.go:161-186 | after every run, a response offered in Trying or Proceeding is sent exactly once, and one offered later is stored and not sent |
| ServerNonInvite.NonInviteLife | transaction/server_tx.go:294-365 | a run is in Confirmed exactly when a CANCEL reached it; otherwise Terminated and closed agree and Completed lasts at most 64*T1 |
| ServerNonInvite.CancelStrandsNonInvite | transaction/server_tx.go:303-330 | after a CANCEL no continuation sends, answers, reports, passes up or closes anything |
| Timing.TenCappedResends | transaction/base.go:11-24 | with waits doubling from T1 up to T2, exactly ten resends lie before 64*T1 |
| Timing.SixDoublingResends | transaction/base.go:11-24 | with resend k at T1*(2^k - 1), exactly six lie before 64*T1 |
| ClientTransaction.ClientTx.Init | transaction/client_tx.go:56-117 | the first send and the timers of the transport, or the end of the transaction when the send fails |
| ClientTransaction.ClientTx.Receive | transaction/client_tx.go:126-151 | the response becomes the last one and is spun by its class |
| ClientTransaction.ClientTx.Spin | transaction/client_tx.go:201-345 | the loop over an input and its follow-up inputs ends in the state that the two tables define; what the tables define is what the tableless specification of `ClientSpec` does, by `ClientRefines` |
| ClientTransaction.ClientTx.Perform | transaction/client_tx.go:456-633 | each action changes exactly its timers, history and channels and returns its follow-up input |
| ClientRuns.SpinSettles | transaction/client_tx.go:201-345 | Spin ends after at most three inputs, which are spelled out by the row and the outcome of the send |
| ClientRuns.ClientStep | transaction/client_tx.go:201-345 | every response, timer or wait keeps the invariant of both client tables |
| ClientRuns.ClientSafety | transaction/client_tx.go:201-345 | in every run after a successful first send Spin finds a row, no nil timer is reset, nothing is sent on a closed channel, and Terminated and closed agree |
| ClientRuns.RequestTiming | transaction/client_tx.go:456-489 | every send is at its instant of the doubling or capped schedule, at most 7 or 11 in all, exactly so many at a timeout without a response, one if reliable |
| ClientRuns.NonInviteDeadline | transaction/client_tx.go:540-569 | while not Terminated, a non-INVITE transaction is at most 64*T1 + T4 old, 64*T1 if reliable, whatever the order of events |
| ClientRuns.InviteWaitsForever | transaction/client_tx.go:219-230 | after a provisional response an INVITE transaction can be in Proceeding arbitrarily long |
| ClientRuns.Delivery | transaction/client_tx.go:365-415 | provisionals and then at most one final go up; a timeout excludes a final; transport errors follow failed ACKs only; non-INVITE never acknowledges |
| ClientRuns.ExactlyOnce | transaction/client_tx.go:491-577 | what goes up is exactly what was received in Calling or Proceeding, and an INVITE attempts exactly one ACK for each 300+ response received before Terminated |
| ClientSpec.ClientRefines | transaction/client_tx.go:56-633 | for every method, transport and outcome of the first send, the transaction has the same legal runs as a specification without tables and timer objects, with its times in milliseconds, and at the end of each of them the same sends, ACKs, responses passed up, errors, phase and instants of its timers |
| ClientSpec.CompletedLingers | transaction/client_tx.go:508-577 | from its first final response that does not end it, a transaction is in Completed exactly until 32000 ms later for an INVITE, 5000 ms for any other request, at once if reliable, if no ACK fails; until then an INVITE acknowledges that response and every further one of class 300 and up |
| TxKeys.ServerKeyInjective | transaction/tx.go:129-140 | server keys determine branch, host, port and method when host and method hold no underscore |
| TxKeys.ServerKeyMethod | transaction/tx.go:129-140 | the method can be read back from a server key whatever branch and host hold |
| TxKeys.ClientKeyCollides | transaction/tx.go:193-196 | a client key equals a server key if and only if its branch spells out branch, host and port of that key and the methods agree; a branch without underscores never does |
| TxKeys.CopyHeaders | sip/message.go:190-195 | the headers of one name are filed in order behind those already there |
| TxKeys.CreateResponse | sip/request.go:254-291 | version and body of the request, the status with its reason, source and destination swapped, and the headers that `ResponseHasExactly` lists by name in the order of `ResponseOrder` |
| CreatedResponses.ResponseHasExactly | sip/request.go:265-281 | a response has the request's lists of Record-Route, Via, From, Call-ID and CSeq, its list of To with the tag put into a first header without one unless the status is 100, its Timestamp exactly if it is, and no other header |
| CreatedResponses.ResponseOrder | sip/request.go:265-281 | the response prints those of Record-Route, Via, From, To, Call-ID, CSeq and Timestamp that the request has, in this order |
| TxKeys.ResponseKeepsKeys | sip/request.go:254-291 | a response built from a request has the server key and the client key of the request |
| TxKeys.ReparsedKeepsKeys | transaction/tx.go:97-197 | printing Via and CSeq and parsing both again leaves both keys as they are |
| Matching.KeysAre | transaction/tx.go:97-197 | the texts of both keys, spelled out: branch, host, port with its default, and method, in which an ACK has the keys of its INVITE and a CANCEL its server key |
| Matching.OtherBranches | transaction/tx.go:120-191 | without a branch that goes on behind the magic cookie there is no client key and the server key is that of RFC 2543, if it has one; a branch without a value panics |
| Matching.RequestReaches | transaction/transaction.go:350-358 | a request that finds a transaction is received by it, with its method and number, and nothing else changes |
| Matching.FindsExactly | transaction/transaction.go:340-376 | while the pool holds the server transaction of a request, another request finds it if and only if it has the same branch, host and port and repeats it, or is the ACK or CANCEL of an INVITE, for hosts without underscores |
| Matching.AckAndCancelFind | transaction/transaction.go:340-376 | after any run in which nothing claims the key of an INVITE, an ACK or CANCEL finds its transaction if and only if it has the INVITE's branch, host and port |
| CSeqs.SplitByWhitespace | sip/parser.go:1567-1592 | the parts between blanks and tabs, character by character, with invalid UTF-8 replaced |
| CSeqs.ParseCSeqHeader | sip/parser.go:1071-1107 | number and method of a CSeq text, refused unless there are two parts, a number of 31 bits and no semicolon |
| CSeqs.CSeqRoundTripExactly | sip/headers.go:654-656 | a printed CSeq parses back to itself if and only if its number has 31 bits and its method is non-empty valid UTF-8 without blanks, semicolons or white space around it |
| TransactionLayer.TxLayer.GetServerTx | transaction/transaction.go:485-516 | the lookup finds the pool's entry under the server key if it is a server transaction |
| TransactionLayer.TxLayer.GetClientTx | transaction/transaction.go:451-482 | the lookup finds the pool's entry under the client key if it is a client transaction |
| TransactionLayer.TxLayer.Put | transaction/tx_pool.go:21-25 | the new object is in the pool under its key, displacing what was there, and nothing else changes |
| TransactionLayer.TxLayer.HandleRequest | transaction/transaction.go:340-414 | a matched request reaches its transaction alone; an unmatched ACK goes up, a CANCEL is answered 481, any other creates a transaction and goes up: the function of the layer that `RequestReaches`, `StrayRequest` and `CreationStep` determine |
| TransactionLayer.TxLayer.HandleResponse | transaction/transaction.go:417-448 | a matched response reaches its transaction alone, any other goes up: the function of the layer that `ReplyDelivered` and `StrayOthers` determine |
| TransactionLayer.TxLayer.SendRequest | transaction/transaction.go:152-186 | an ACK is sent directly; any other request gets a transaction that is in the pool before its first send and served only if that succeeds |
| TransactionLayer.TxLayer.SendResponse | transaction/transaction.go:189-210 | the response reaches the transaction of its server key, or nothing changes |
| TransactionLayer.TxLayer.DropTransaction | transaction/transaction.go:247-252 | the pool loses whatever it holds under the key of the finished transaction |
| LayerRuns.LayerStep | transaction/transaction.go:340-448 | every event keeps the invariant of the pool and of every server transaction in it |
| LayerRuns.ConfirmedUnreachable | transaction/transaction.go:340-384 | in every run of the layer on well-formed requests no non-INVITE transaction is in Confirmed, a found transaction accepts the request, and ACK and CANCEL find INVITE transactions only |
| LayerRuns.MismatchedCancel | transaction/tx.go:109-112 | a CANCEL strands a non-INVITE transaction if and only if its CSeq names a method other than INVITE, ACK and CANCEL |
| LayerRuns.RetransmissionsAbsorbed | transaction/transaction.go:355-414 | from any state in which the pool holds a server transaction, no run in which its key is not claimed hands up a request under the key |
| LayerRuns.HoldsRun | transaction/tx_pool.go:21-42 | through any run the pool holds a transaction under a key if and only if it did and no event claims the key: a new transaction under it, or the end of one that has it |
| LayerRuns.CreationHandsUp | transaction/transaction.go:378-414 | the creating request is handed up exactly once and its transaction is in the pool under its key |
| LayerRuns.ResponseRouted | transaction/transaction.go:189-210 | a response built from a request is routed to the transaction that the request finds |
| LayerRuns.Displaces | transaction/transaction.go:165-173 | a user's request displaces a server transaction if and only if its branch spells out that key and the methods agree |
| LayerRuns.PanicsExactly | transaction/tx.go:115-118 | a run of the layer panics if and only if some message that it looks up has a branch without a value |
| LayerRuns.FailedRequestStays | transaction/transaction.go:173-183 | a request whose first send fails leaves its transaction in the pool through a run if and only if nothing else claims its key, and then no response with that key is handed up |
| LayerRuns.ResponseFindsSender | transaction/transaction.go:417-448 | a response with the Via and CSeq of a request as it was sent, the top hop rewritten, printed and parsed again, finds the client transaction of the request |
| LayerLives.FinishedLeaves | transaction/transaction.go:173-252 | in every run of the layer a finished transaction can leave the pool, or has, if and only if it is a server transaction or its first send succeeded; leaving takes its key out of the pool |
| LayerLives.LivesRun | transaction/transaction.go:340-448 | in every run of the layer, each transaction is what a legal run of its own makes of it, on the clock of the layer |
| LayerDelivery.OwnRun | transaction/transaction.go:152-448 | in every run of the layer, each transaction is what the run made up of its own shares of the layer's events, taken in order, makes of the one that its event created |
| LayerDelivery.CreationStep | transaction/transaction.go:152-414 | exactly which events create a transaction, and with which key, method, transport and instant it is put into the pool |
| LayerDelivery.StrayRequest | transaction/transaction.go:355-414 | a request that finds no transaction: an ACK goes up and is not refused, a CANCEL is refused and does not go up, any other creates its transaction or, without a key, changes nothing |
| LayerDelivery.StrayOthers | transaction/transaction.go:152-448 | a response that arrives without a transaction goes up, one of the user without a transaction changes nothing, an ACK of the user is sent directly and does nothing else, a request without a key changes nothing, a branch without a value only panics |
| LayerDelivery.RunGives | transaction/transaction.go:340-448 | over every run, what the layer handed up, answered 481 and sent directly is exactly what its events give, in order |
| LayerAnswers.ReplyDelivered | transaction/transaction.go:417-448 | in every run of the layer, a response that finds a client transaction reaches it and nothing else: it goes up exactly in Calling and Proceeding, and a 300+ to an INVITE is acknowledged once before Terminated |
| LayerAnswers.SentRequestAnswered | transaction/transaction.go:152-186 | after a request was sent, every run passes up exactly the responses that its own run received in Calling or Proceeding and acknowledges an INVITE's 300+ responses one by one; while nothing claims the key, a response to the request as sent finds it |
| LayerAnswers.AnswerReaches | transaction/transaction.go:189-210 | the response that the user creates from a request reaches the transaction that the request finds, and no other, with its code and number: forwarded if it answers a CANCEL, offered otherwise |
| LayerAnswers.AsSpecified | transaction/transaction.go:152-448 | each transaction that the layer creates does in every run what `ServerSpec` or `ClientSpec` does on its own run, from the instant of its creation |
| LayerLives.ServerInLayer | transaction/transaction.go:340-414 | every server transaction in the layer keeps its wire trace, passes up at most one ACK and keeps its deadlines by the clock of the layer |
| LayerLives.ClientInLayer | transaction/transaction.go:417-448 | every client transaction in the layer whose first send succeeded delivers provisionals and at most one final, never fails, and ends within 64*T1 + T4 unless it is an INVITE |
| LayerLives.OneRequestOneAck | transaction/transaction.go:340-414 | a request that creates a transaction is handed up once; until its key is claimed the pool holds the transaction, no request is handed up under the key again, and at most one ACK goes up |
| ParserBuffers.ParserBuffer.NextLine | sip/parserbuffer.go:47-75 | whatever the chunks, the line ends at the first CRLF whose '\r' is not the partner of another one, if it comes in front of the first stall, and the stream goes on behind it; otherwise an error and what is left behind it |
| ParserBuffers.ParserBuffer.NextChunk | sip/parserbuffer.go:82-99 | whatever the chunks, exactly the next n bytes |
| ParserBuffers.StallExactly | sip/parserbuffer.go:54-66 | a line of the stream is read if and only if it ends in front of the first hundred empty writes in a row |
| ParserBuffers.LineExactly | sip/parserbuffer.go:47-75 | a text followed by CRLF is read back as one line if and only if it is clean, whatever follows |
| ParserBuffers.LineExtends | sip/parserbuffer.go:47-75 | a line that is complete does not depend on what comes behind its end |
| Framing.BodyLength | sip/parser.go:497-510 | the bytes behind the first double CRLF, which itself lies within the data; none if there is no double CRLF |
| Framing.Parser.Write | sip/parser.go:216-250 | the bytes and, unstreamed, the entry of their lengths are queued; a datagram without a double CRLF is dropped without an error; only an empty write of a streamed parser can bring a stall about |
| Framing.Parser.ReadHeaders | sip/parser.go:346-402 | the header section with folded lines joined, as a function of the stream |
| Framing.Parser.ParseRound | sip/parser.go:282-487 | one round puts out, consumes and pops what the round function of stream and queue says |
| Framing.Parser.Parse | sip/parser.go:282-487 | the whole loop, as a function of stream and queue |
| FramingIsolation.DatagramIsolated | sip/parser.go:282-487 | an aligned datagram's round consumes exactly its bytes and its entry, and its outcome depends on its own bytes alone |
| FramingIsolation.IsolatedExactly | sip/parser.go:282-487 | with more bytes behind it, the next round starts at the next datagram if and only if the start line is refused or an even number of '\r' stands before the double CRLF |
| FramingIsolation.LastExactly | sip/parser.go:282-487 | with nothing behind it, a datagram gives what an aligned one gives if and only if it is aligned or has no body |
| FramingIsolation.RefusedIsolated | sip/parser.go:319-340 | on the path of a refused start line the skip drops exactly the rest of the datagram, aligned or not |
| FramingIsolation.OwnEntryFits | sip/parser.go:326-333 | a round that starts at its own datagram, with its own entry at the head of the queue, pops that entry and does not make the skip negative |
| FramingIsolation.WriteQueues | sip/parser.go:216-250 | the entry of these theorems is the one that Write queues, and Write drops exactly the datagrams without one |
| FramingIsolation.DatagramsIsolated | sip/parser.go:282-487 | any sequence of aligned datagrams gives one outcome each, in order, and empties both queues |
| FramingIsolation.AlignedPrefix | sip/parser.go:282-487 | aligned datagrams in front of any others give their outcomes and leave stream and queue exactly at the others |
| FramingCrash.RunNeverCrashes | sip/parser.go:282-487 | a run of accepted datagrams of which all but the last are aligned never makes the size of a skip negative |
| FramingCrash.ThreeDatagramsCrash | sip/parser.go:326-333 | three accepted datagrams, the first misaligned, that make it negative |
| FramingCrash.MisalignedCrashes | sip/parser.go:282-487 | every misaligned datagram, behind any aligned ones, has a continuation of accepted datagrams that makes it negative |
| FramingStream.LinesRead | sip/parser.go:366-402 | printed header lines are read back line by line up to the empty one |
| FramingStream.Gathered | sip/parser.go:379-390 | folded headers come out as their lines joined with blanks, in order |
| FramingStream.RefusedLine | sip/parser.go:319-324 | a refused start line of a stream is reported, and the next round starts behind it |
| FramingStream.LeadingContinuation | sip/parser.go:379-390 | a continuation line in front of all headers is dropped |
| FramingStream.HeadRead | sip/parser.go:405-484 | one streamed round behind any printed headers: with one Content-Length it takes that many bytes as the body, or reports that they are missing; with none or several it reports that and takes no body |
| FramingStream.MessageRead | sip/parser.go:409-484 | one round reads one printed message with one Content-Length equal to its body, whatever follows |
| FramingStream.MessagesRead | sip/message.go:104-115 | any number of printed messages is read back in order, up to whatever follows them |
| FramingStream.StreamFramed | sip/parser.go:362-484 | any splitting of the printed messages into writes gives exactly those messages |
| FramingStream.BodiesKept | sip/parser.go:480-482 | all bodies come through unchanged if and only if each is empty or not all white space |
| ElasticChannel.ElasticChan.ManageTurn | utils/elasticchan.go:58-87 | one turn receives, sends or leaves the loop if it can, and loses nothing |
| ElasticChannel.ElasticChan.Dispose | utils/elasticchan.go:92-100 | everything sent ends up received or in the output, in order |
| ElasticChannel.StepConserves | utils/elasticchan.go:55-100 | every step keeps received, output, buffer and input, joined, equal to what was sent, and both channels within capacity |
| ElasticChannel.RunConserves | utils/elasticchan.go:55-100 | so does every run, and what was sent is what the run's senders sent |
| ElasticChannel.StopDelivers | utils/elasticchan.go:40-49 | a full input is always taken from; once stopped, every step reduces the work left, and at its end everything sent has been received |
| Params.HeaderParams.Add | sip/headers.go:474-484 | a new key goes to the end of the order, a known key keeps its place |
| Params.HeaderParams.ToString | sip/headers.go:507-535 | the parameters in order, quoted exactly when the value holds white space |
| Params.ParseParams | sip/parser.go:764-902 | the loop over the characters, as a function of source and delimiters, with the parameters stored before an error |
| ParamsRoundTrip.ParseRender | sip/parser.go:764-902 | parsing printed legal parameters gives them back in order and consumes exactly what was printed |
| ParamsRoundTrip.ParseSound | sip/parser.go:764-902 | on any text a success stops at the end or at an end delimiter outside quotes, and all that is returned is free of delimiters, quotes and '=' where the loop forbids them |
| ParamsExactly.RoundTripExactly | sip/headers.go:507-535 | printed ASCII parameters parse back to themselves if and only if they are legal |
| ParamsExactly.ParsedIsLegal | sip/parser.go:764-902 | what comes out of any text with a blank or '=' between its quotes can be printed and parsed again |
| ParamsSize.ReprintNotLonger | sip/parser.go:764-902 | printing what was parsed is never longer than what was consumed |
| ParamsSize.NoEndBehindQuote | sip/parser.go:854-862 | parsing never ends right behind a quote except at the end of the text |
| Blanks.BlankInserted | sip/parser.go:764-902 | a blank or tab put into a text of parameters outside quotes changes nothing that is read, except directly behind a closing quote, where it is an error |
| SipUris.ParseSipUri | sip/parser.go:628-752 | the fields and the remaining text, with the panics on short texts |
| SipUriRoundTrip.UriRoundTrip | sip/headers.go:1538-1579 | ParseSipUri undoes String on the domain |
| SipUriExactly.UriRoundTripExactly | sip/headers.go:1538-1579 | a printed URI parses back to itself if and only if it is in the domain: no delimiter where it would be taken for one, no empty user or password, no quoted last parameter in front of headers |
| SipUriExactly.RestNotLonger | sip/parser.go:676-727 | parsing what follows the user information and printing it again gives no more characters |
| Blanks.SchemeExactly | sip/parser.go:601-668 | a URI is read exactly behind "sip" or "sips" in any mix of cases, and then only by what follows the colon |
| Vias.ParseViaHeader | sip/parser.go:1137-1212 | the hops of all sections, or an error of any of them |
| Vias.AcceptedExactly | sip/parser.go:1137-1212 | a Via text is accepted if and only if every section yields a hop and its parameters parse; the hops are then those of the sections, in order |
| Vias.ViaRoundTrip | sip/headers.go:1305-1382 | a printed Via list of any length parses back to the same hops |
| ViaExactly.ViaRoundTripExactly | sip/headers.go:1305-1382 | it does so if and only if every hop is legal: no delimiter where it would be taken for one, no white space around the words |
| Blanks.SectionReads | sip/parser.go:1141-1206 | a hop is read from a section exactly if it has three parts between slashes, the first two not white space, and a transport that white space follows; host, port and parameters are what stands behind it |
| Blanks.ViaBlanks | sip/parser.go:1141-1182 | white space in front of the name, version or transport of a hop changes nothing that is read of it |
| Addresses.FindAnyUnescaped | sip/parser.go:1540-1563 | the first target outside the delimiters |
| Addresses.ParseAddressValues | sip/parser.go:1314-1353 | the addresses between the commas outside quotes and brackets |
| Addresses.ParseAddressValue | sip/parser.go:1365-1465 | display name, URI and parameters of one address, with the panics on malformed ones; `NameAddrRoundTrip` and `PlainAddressRoundTrip` say which three they are |
| NameAddrs.NameAddrRoundTrip | sip/parser.go:1365-1465 | parsing a printed address gives exactly its display name, quoted or bare or none, its URI and its header parameters |
| NameAddrs.PlainAddressRoundTrip | sip/parser.go:1426-1465 | so does parsing the form without brackets, whose semicolons belong to the header |
| NameAddrs.WildcardRoundTrip | sip/parser.go:601-612 | so does parsing the wildcard, with parameters or without |
| NameAddrs.QuotedNeedsBracket | sip/parser.go:1385-1425 | a quoted name that no bracket follows is refused, whether a bracket comes later or not |
| NameAddrs.ListRoundTrip | sip/parser.go:1314-1353 | a printed list of such addresses, none with a comma outside quotes and brackets, parses back to them in order |
| AddressCrashes.ListCrashesExactly | sip/parser.go:1314-1465 | a list panics if and only if some section is white space only or leaves the bracket of its URI open, and all sections in front of it parse |
| AddressCrashes.AnyNeverCrashes | sip/parser.go:601-625 | a URI whose scheme was checked is never too short for ParseSipUri |
| Addresses.RouteRoundTrip | sip/headers.go:1085-1093 | a printed Route or Record-Route list of any length parses back to the same URIs, commas inside them included |
| RouteExactly.RouteRoundTripExactly | sip/parser.go:1314-1353 | for URIs that survive alone and hold no angle bracket, it does so if and only if each has its quotes in pairs |
| HeaderStore.Headers.AddHeader | sip/headers.go:148-165 | in any store that the operations can build, the header is filed last under its name, a new name goes to the end of the order |
| HeaderStore.Headers.ReplaceHeader | sip/headers.go:168-174 | the name holds just this header, the order is unchanged |
| HeaderStore.Headers.PrependHeader | sip/headers.go:179-189 | the header is filed first under its name, a new name goes to the front of the order |
| HeaderStore.Headers.PrependHeaderAfter | sip/headers.go:191-232 | in any store that the operations can build, the name is taken out of the order and put just behind the anchor, or in front when the anchor is missing in the order |
| HeaderStore.Headers.DelHeader | sip/headers.go:275-294 | the names are gone from the map and the order; no names at all clear the store |
| HeaderStore.PrependedAfterKeeps | sip/headers.go:191-232 | the store stays valid and all other names keep their order |
| HeaderStore.OperationKeeps | sip/headers.go:148-294 | every operation keeps the order duplicate-free and equal to the keys, with no empty list, except a replacement of a missing name |
| HeaderStore.OperationsKeep | sip/headers.go:148-294 | so does every sequence of operations that replaces present names only |
| HeaderStore.OperationsSound | sip/headers.go:148-294 | every sequence of operations, replacements of missing names included, keeps the order duplicate-free and within the keys, with no empty list |
| HeaderStore.ReplacedMissing | sip/headers.go:168-174 | a header replaced under a missing name is found by name and never printed |
| HeaderListing.InPlace | sip/headers.go:110-189 | headers of a name that is printed stay at their place: an added one is printed behind them, a prepended one in front of them, a replacing one alone |
| HeaderListing.NewName | sip/headers.go:148-189 | a header of a new name is printed behind all others when it is added and in front of all others when it is prepended |
| HeaderListing.HiddenName | sip/headers.go:148-189 | headers under a name outside the order stay unprinted whatever is added to them |
| HeaderListing.DeletedPrints | sip/headers.go:275-294 | what is printed after a name was deleted is what was printed before, without its headers |
| HeaderListing.PrependedAfterPrints | sip/headers.go:191-232 | a header put behind an anchor is printed, with the others of its name, directly behind the headers of the anchor, and all others as before |
| HeaderListing.OwnAnchorPrints | sip/headers.go:191-232 | a header put behind its own name is printed in front of the headers of that name, in their place |

## Left out

- Transport: sockets, listeners, DNS, connection pools and the choice between UDP and TCP by size. A send succeeds or fails.
- Scheduling finer than one `Receive`, `SendResponse`, handler or timer callback; a `Timer.Stop` that comes too late.
- `Close` of a transaction or of the layer, `Stop` and `Reset` of the parser and its stopped flag.
- The text of the key of RFC 2543 (`transaction/tx.go:142-164`): it is an abstract function of the message.
- Digest authentication, random tags and branches, message identifiers, sessions, callbacks, options, logging, error texts.
- Parsers of start lines and of single header lines in the framer (`sip/parser.go:515-599`, `sip/parser.go:907-945`): abstract functions.
- Exact request round trips: the parser keeps only host and port of the recipient, and the printed request line is rebuilt from To.
- `CreateAck` (`sip/response.go:248-280`): it makes a new branch, so an ACK for a failure never matches the transaction it belongs to; only that an ACK is attempted is modelled.
- Scalar headers such as Expires, Max-Forwards and Allow: simple next to the lists above.
- ParamsExactly.RoundTripExactly: stated for ASCII parameters, because the parser encodes every byte from 128 on as two; the same holds for the parameters in SipUriExactly.UriRoundTripExactly and ViaExactly.ViaRoundTripExactly, while users, hosts and words are any bytes.
- SipUriExactly.UriRoundTripExactly: a URI with nil parameters or headers is modelled as one with empty ones, which is what parsing returns; a nil value of a parameter is a key without a value.
- How a request computes the source and destination that it reports (`sip/request.go:189-251`): parameters of `CreateResponse`, as are the random tag and the standard reason.
- Framing.Parser.Parse: promises nothing about a streamed parser after a hundred empty writes in a row; `ParserBuffers.ParserBuffer.NextLine` says what the reader does then.
- Lower-casing beyond ASCII in header names and URI schemes.
- The pipe's blocking: the writes of a run are all there from the start, so a reader at the end of the pipe sees its closing.
- The library discoviking/fsm is not part of this model; its `Spin` is as described above.
