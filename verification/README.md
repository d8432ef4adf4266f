# Jasmin SMS gateway: a Dafny model of its stateful core

Jasmin is an SMS gateway: SMPP v3.4 towards clients and towards upstream message centres, an HTTP API, AMQP queues in
between, and Redis for what has to be remembered about receipts and long messages. This project models the parts of
it that keep state over many messages, and proves what holds of them over every run.

`dafny verify dfyconfig.toml` checks everything.

## How it is put together

Each component comes in two layers. The first gives the effect of every step as a function on values, together with
runs (arbitrary sequences of steps) and the theorems about them. The second is the code itself: classes whose methods
update their fields as the gateway's objects do, each proved to do what the function says.

| module | component |
|---|---|
| `DlrCorrelation`, `DlrLookup` | the two Redis maps that lead an upstream receipt back to the client, and the queue consumer that works on them |
| `Numerals`, `MessageIds` | reading and writing numbers as Python does, and the keys made from upstream message ids in different bases |
| `ReceiptFlow` | these put together: receipts named in another base, receipts that overtake their response, retried submissions |
| `Redelivery`, `SharedIds`, `Throwers`, `SubmitListener` | what becomes of a consumed AMQP message: acknowledged, rejected, or held by a timer |
| `LongMessages`, `SubmitFactory`, `Reassembly` | cutting a content into parts, the chain of submit_sm objects, and putting received parts together |
| `LongTransactions` | the transaction that tracks the parts of a long message sent upstream |
| `Billing` | bills in two parts, the charge, the later bill request, user quotas |
| `RoutingTables` | routing tables, route lookup, the choice of a connector on a failover route |
| `Throttle` | the throughput quota |
| `Bindings` | bind managers, connection counters and the roster of bound peers |
| `TlvRules`, `TlvCodec`, `TlvPolicy` | connector TLV rules as text, TLVs as octets, and the validation of one against the other |
| `Basics`, `Octets` | definitions the others share |

Handlers are atomic steps; only in `SharedIds` other messages are handed over while a throw is under way. The broker,
Redis, timers and the clock are the environment: their answers are parameters or events. Message ids and session ids
are fresh when they are handed out. In `Redelivery` the broker has at most one unsettled message for an id; the receipts
of one message share its id, and `SharedIds` is about them.

## What the code does not keep

These are properties one might expect and the code does not have. Each is proved to fail, with the exact condition
under which it holds.

- Among SMPP senders a failed submission is reported only to one who registered for failures alone. One who registered
  for every receipt is never told of a message that got error responses only, although section 5.2.17 of SMPP v3.4
  promises it (`FailedSubmissionReportedIff`, `FailedForEveryReceiptNeverTold`).
- An error response that will be retried is notified as if it were final. When the retry succeeds, the client hears of
  it exactly if it sent over SMPP or asked for level 2; anyone else is told nothing after the error
  (`RetriedSubmission`, `RetryTiesIff`, `SilentAfterError`).
- A receipt is published again exactly when it is final and, whatever else befalls Redis, two of the first max(1,
  `dlr_lookup_max_retries`) deliveries of its notice find the record, every deletion up to the second having failed
  (`ReceiptRepeatedIff`).
- The throwers keep timers by message id, and the receipt for a response and the one for the delivery can share it
  (`TwoUnderOneIdIff`). A thrown message is never settled exactly when its throw was abandoned or, while it was held,
  another of its id was handed to a callback that clears the timer, or was held in its turn (`LostIff`,
  `SecondLosesFirst`).
- With decimal responses and hexadecimal receipts the two keys of a message differ exactly for message number zero
  (`DecimalResponseHexReceipt`).
- An incoming part yields a message exactly when it is the highest-numbered one and finds exactly the other fields,
  whoever left them (`CompleteIff`). The message is whole exactly when that part comes last and no field left over is
  numbered as high (`ReassembledIff`). If it comes earlier and left-over fields fill the gap, two messages are stitched
  together (`CompleteContent`, `StitchedFromTwo`). A reference reused before the fields expire works exactly for a
  message of more parts (`ReusedReference`).
- Sending a long message is safe, in that no response after it misleads a sender, exactly when its reference is neither
  open nor awaited by an earlier request (`SendSafeIffClean`, `CollisionMisleads`).
- A long message is reported with the status of the last response to come, so the refusal of a part is reported exactly
  when it is that one (`LastStatusReported`, `RefusalGoesUnreported`).
- A chain of parts that carries no marks, which an unknown `long_content_split` produces, is read and billed for its
  first part only (`ReadOffIff`). The client protocol, which is followed here for marked chains only, sends that part
  alone as well.
- On a failover route all of whose connectors fail, a thrown message is neither acknowledged, rejected nor held
  (`FailoverSucceedsIff`).
- A declined charge changes the quotas exactly when the balance was sufficient and the message count was not
  (`ChargeAtomicIff`); the requirements both front ends put to it rule that out (`SubmitAllOrNothing`).
- The part of a price that is due on the response is not reserved. It is collected for certain as long as no message
  is accepted beyond what the balance leaves free of earlier debts; once one is, the debts cannot all be settled
  (`NextKeepsCoveredIff`, `EveryRequestIsPaid`, `UncoveredLosesSome`, `SecondPartCanBeLost`).
- A limit on bindings holds exactly while binds are counted in the status the limit is looked up in (`LimitHoldsIff`).
  That is so for a user who replaces another (`ReplacementShares`), and not for one removed while bound and added again
  under another uid (`RecreatedUserExceeds`).
- Adding a user keeps the counters right exactly when it does not give a uid with bound connections the status of
  someone else (`AddedKeepsRightIff`); otherwise a counter can go to minus one (`TakenOverStatusGoesNegative`).
- A message for a connector that is not ready is discarded by the seconds of its age after whole days are taken off, so
  the age limit is kept exactly for an age within it, or one that exceeds it by those seconds too (`AgeLimitKeptIff`). A
  message that is only met while they are within the limit is never dropped, however old it is and however often it is
  offered (`NeverDropped`, `OfferedForever`).
- TLV rules printed and parsed again come back exactly when no tag is negative (`ParsePrint`).
- Of several TLVs with one tag only the last is validated (`EarlierDuplicateUnchecked`). A valid list obeys a rule on the
  wire exactly when it has no earlier TLV of that tag with too long a body (`ObeyedIff`, `ValidListBreaksRule`).

## Model

| member | source | states |
|---|---|---|
| DlrCorrelation.RunIsConsistent | jasmin/managers/dlr.py:189-439 | After every run of submissions, responses, receipts and expiries each record is the one its submission left, and each link leads to a submission that can get receipts, under the right source. |
| DlrCorrelation.SourcesAgree | jasmin/managers/dlr.py:249-257 | In every reachable state a link whose record still exists carries that record's source, and an HTTP one has level 2 or 3. |
| DlrCorrelation.NeverMapError | jasmin/managers/dlr.py:349-361 | So the error for a record of a different source is never raised, whatever comes next. |
| DlrCorrelation.NotFoundIff | jasmin/managers/dlr.py:201-212 | A notice ends as not found exactly if Redis answers and has no record behind it; then, and when Redis does not answer, nothing is published or changed. |
| DlrCorrelation.EveryReceiptWasAskedFor | jasmin/managers/dlr.py:189-439 | Every receipt published in any run answers one earlier submission: same id, its destination, and wanted by it. |
| DlrCorrelation.AskedBySubmission | jasmin/managers/clients.py:596-648 | Under an id only its one submission is remembered as having asked; whether it left a record is `RecordThereIff`. |
| DlrCorrelation.FailureOnlyNeverToldOfSuccess | jasmin/managers/dlr.py:277-298 | With receipts on successful responses off, no run tells a sender registered for failures only of a success, on either path. |
| DlrCorrelation.FailedSubmissionReportedIff | jasmin/managers/dlr.py:277-298 | An error response is reported to an SMPP sender exactly when it registered for failures only. |
| DlrCorrelation.FailedForEveryReceiptNeverTold | jasmin/managers/dlr.py:277-308 | In no run is a sender registered for every receipt told anything about a message that got error responses only. |
| DlrCorrelation.FinalReceiptIsLast | jasmin/managers/dlr.py:395-439 | After a final receipt for an id nothing is ever published for it again, by either path. |
| DlrCorrelation.RecordGoneIff | jasmin/managers/dlr.py:233-439 | A step takes the record of a message away exactly when it expires, when a response is told to an HTTP client at level 1, or at level 3 with an error, or when a receipt that is due is in one of the five final states; no other receipt does. |
| DlrCorrelation.RecordMade | jasmin/managers/clients.py:596-648 | A submission leaves a record exactly if Redis is up and it comes from an HTTP client with a url or from an SMPP sender who registered. |
| DlrCorrelation.RecordThereIff | jasmin/managers/clients.py:596-648 | In every run the record of a submission is there exactly if it was left and no step since has closed it. |
| DlrCorrelation.TiesKeyIff | jasmin/managers/dlr.py:249-308 | Where an upstream id leads changes exactly by a successful response for a live record that can get receipts, which then it leads to, and by its expiry. |
| DlrCorrelation.ReceiptReachesSender | jasmin/managers/dlr.py:329-439 | From the submission on, told from requests and events alone: recorded, named by a response, and no event that may close the record or rebind the name; then the receipt brings the sender exactly what it is due. |
| DlrCorrelation.ResponseReachesSender | jasmin/managers/dlr.py:215-308 | Likewise a response brings the sender exactly what it is due, at level 1 and 3 and to SMPP senders as registered, and its handling ends as request and fault say. |
| DlrCorrelation.IntermediateThenFinal | jasmin/managers/dlr.py:395-439 | A receipt in state ACCEPTD or UNKNOWN does not end the matter: it and a later one on the same message are both published as due. |
| DlrCorrelation.TwoUnderOneIdIff | jasmin/managers/dlr.py:215-308 | When a receipt is published, its response was too, under the same id, exactly for an HTTP client at level 3 or, with receipts on successful responses, an SMPP sender. |
| DlrCorrelation.ReceiptCameOverATie | jasmin/managers/dlr.py:329-439 | Conversely a published receipt comes from a submission that was recorded and not closed since, over the last response that tied its upstream id, which has not expired since. |
| DlrLookup.Lookup.constructor | jasmin/managers/dlr.py:37-60 | A lookup starts with empty maps, counters and timers. |
| DlrLookup.Lookup.RejectAndRequeueMessage | jasmin/managers/dlr.py:91-121 | A held message gets one timer; a second request keeps the first. |
| DlrLookup.Lookup.RejectMessage | jasmin/managers/dlr.py:123-134 | One basic_reject; a final one forgets the counter, either forgets the timer. |
| DlrLookup.Lookup.AckMessage | jasmin/managers/dlr.py:136-148 | One basic_ack; counter and timer are forgotten. |
| DlrLookup.Lookup.TimerFired | jasmin/managers/dlr.py:111-134 | The held message goes back to the queue once and keeps its counter. |
| DlrLookup.Lookup.LookupResponse | jasmin/managers/dlr.py:189-308 | A response notice changes the maps and publishes as the specification says, fault by fault. |
| DlrLookup.Lookup.LookupReceipt | jasmin/managers/dlr.py:329-439 | The same for a receipt notice; one that is not in a final state changes nothing in Redis. |
| DlrLookup.Lookup.TrackRetrial | jasmin/managers/dlr.py:162-166 | The delivery is counted. |
| DlrLookup.Lookup.Conclude | jasmin/managers/dlr.py:440-463 | However a handler ended, the message is acknowledged, rejected or held as its outcome and counter say. |
| DlrLookup.Lookup.Dispatch | jasmin/managers/dlr.py:157-175 | A whole delivery: maps, publications, counters, timers and broker calls together are those of the specification and of `Redelivery.Settle`. |
| DlrLookup.SettledCalls | jasmin/managers/dlr.py:309-327 | What that is for the broker: done is acknowledged, a Redis failure or a receipt that finds nothing is held below the limit, all else is rejected for good. |
| Redelivery.NextKeepsSound | jasmin/managers/dlr.py:91-175 | Every publication, delivery and timer keeps the account of every message right. |
| Redelivery.EveryDeliverySettledOnce | jasmin/managers/dlr.py:309-327 | In every run each delivery is answered by one broker call or one pending timer, a message is delivered at most max(1, limit) times, and nothing about it is kept once it is settled. |
| Redelivery.NeverStuck | jasmin/managers/dlr.py:440-463 | A message no delivery of which is abandoned is never left unsettled. |
| Redelivery.AlwaysFailing | jasmin/managers/dlr.py:440-463 | The bound is reached: a message that always fails is delivered exactly max(1, limit) times and then dropped. |
| Numerals.ValueShow | jasmin/managers/listeners.py:537-566 | Writing a number in base 10 or 16 and reading it back gives the number. |
| Numerals.CanonicalNumeral | jasmin/managers/content.py:64-68 | A numeral without leading zeros is, in upper case, the canonical writing of its value. |
| Numerals.ParseNumeral | jasmin/managers/listeners.py:537-566 | Python's `int` reads a plain numeral as its value. |
| Numerals.ParseFormat | jasmin/protocols/cli/smppccm.py:54-63 | `int` reads back what formatting wrote, sign included. |
| MessageIds.KeysAgreeIffSameNumber | jasmin/managers/content.py:64-68 | Two writings in one base get one key exactly when they name one number, whatever zeros and case. |
| MessageIds.TakenAsIs | jasmin/managers/listeners.py:537-566 | A receipt in a data_sm, one that is no number in its base, and any without configured bases gets the key of a response. |
| MessageIds.HexResponseDecimalReceipt | jasmin/managers/listeners.py:537-566 | Mode 1 correlates exactly equal numbers. |
| MessageIds.DecimalResponseHexReceipt | jasmin/managers/listeners.py:537-566 | Mode 2 correlates exactly equal numbers other than zero. |
| MessageIds.KeysMeet | jasmin/managers/listeners.py:537-566 | In each mode the two writings of a positive number lead to one key. |
| ReceiptFlow.ReceiptInAnyBaseReachesSender | jasmin/managers/listeners.py:537-566 | From the submission on: a receipt that names the message in the other base still brings its sender what it is due. |
| ReceiptFlow.CourseIsTally | jasmin/managers/dlr.py:329-463 | For all states and Redis faults a notice meets, its whole course of deliveries, counters and timers included, publishes and ends as the tally of its tries says. |
| ReceiptFlow.CourseOf | jasmin/managers/dlr.py:329-463 | So a notice publishes once for each delivery made that finds the record, and ends acknowledged, dropped or pending by the last of them. |
| ReceiptFlow.MadeIff | jasmin/managers/dlr.py:395-463 | A delivery of a due receipt is made exactly if the limit allows it and no delivery before found the record and deleted it. |
| ReceiptFlow.ReceiptGetsThroughIff | jasmin/managers/dlr.py:329-463 | A due receipt gets through exactly when one of the first max(1, `dlr_lookup_max_retries`) deliveries finds the record, whatever befalls Redis, and is published at most that often. |
| ReceiptFlow.OvertakingReceipt | jasmin/managers/dlr.py:329-463 | A receipt that comes before its response gets through, once, exactly when the first delivery to find the record is one of the first max(1, `dlr_lookup_max_retries`), whatever faults came before; otherwise it is dropped at the last. |
| ReceiptFlow.ReceiptRepeatedIff | jasmin/managers/dlr.py:395-450 | For every sequence of faults and states: a receipt is published again exactly when it is final and two of the deliveries within the limit find the record, every deletion up to the second having failed. |
| ReceiptFlow.ErrorKeepsRecordIff | jasmin/managers/dlr.py:215-257 | An error response takes the record away exactly from an HTTP client at level 1 or 3 with a valid method, who is told of it. |
| ReceiptFlow.RetryTiesIff | jasmin/managers/dlr.py:249-308 | After an error the successful retry leads its upstream id to the message exactly for an SMPP sender or an HTTP client at level 2. |
| ReceiptFlow.SilentAfterError | jasmin/managers/dlr.py:189-439 | Nobody else is ever told anything after the error. |
| ReceiptFlow.RetriedSubmission | jasmin/managers/listeners.py:376-434 | Error, return to the queue, success, receipt: the client gets what it is due exactly if it sent over SMPP or asked for level 2, and otherwise nothing after the error. |
| Throwers.Tried | jasmin/routing/throwers.py:327-334 | The connectors tried are a prefix of the list, on a simple route the first alone; none before the last accepted, and on a failover route the last did, or none is left. |
| Throwers.FailoverSucceedsIff | jasmin/routing/throwers.py:400-421 | A failover message is acknowledged exactly when some connector accepts, and abandoned exactly when none does. |
| Throwers.Tracking.constructor | jasmin/routing/throwers.py:60-61 | The shared counters and timers are empty when the class is loaded. |
| Throwers.Thrower.constructor | jasmin/routing/throwers.py:60-75 | A new thrower takes over the counters and timers all throwers share, as it finds them. |
| Throwers.Thrower.IncThrowingRetrials | jasmin/routing/throwers.py:112-116 | The delivery is counted and no timer touched. |
| Throwers.Thrower.ClearRequeueTimer | jasmin/routing/throwers.py:136-141 | The timer under the key is gone and no other. |
| Throwers.Thrower.RejectAndRequeueMessage | jasmin/routing/throwers.py:184-205 | The message is held by one new timer. |
| Throwers.Thrower.RejectMessage | jasmin/routing/throwers.py:207-213 | One basic_reject; the counter goes with a final one. |
| Throwers.Thrower.AckMessage | jasmin/routing/throwers.py:215-220 | One basic_ack; the counter goes. |
| Throwers.Thrower.TimerFired | jasmin/routing/throwers.py:193-197 | The held message goes back to the queue once with its counter. |
| Throwers.Thrower.ThrowFailed | jasmin/routing/throwers.py:385-399 | A failed throw is held while the counter is at most `max_retries` and a retry is allowed, else dropped; held, it takes the timer of any other message of its id. |
| Throwers.Thrower.TryConnectors | jasmin/routing/throwers.py:327-421 | The loop throws to exactly the connectors `Tried` says, in order, and reports whether the last accepted. |
| Throwers.Thrower.DeliverSm | jasmin/routing/throwers.py:235-527 | A routed message is acknowledged exactly if a connector it was thrown to accepted, on a simple route the first; else rejected for good if the connector is of the wrong type or a simple route may not be retried, held if it may, and left on a failover route. That is `Redelivery.Settle`, and another message held for the id loses its timer. |
| Throwers.Thrower.DeliverReceipt | jasmin/routing/throwers.py:556-728 | A receipt that is accepted is acknowledged, else held below the limit and dropped at it, whoever else is held for its id; another one held loses its timer at once over HTTP, and over SMPP if this one is held too. With none held that is `Redelivery.Settle`. Over HTTP the timer entry is there exactly while it is pending, over SMPP a fired one stays behind. |
| SharedIds.ClosedSettles | jasmin/routing/throwers.py:184-220 | With no other message of the id held, hand-over and end of a throw are together `Redelivery.Settle`. |
| SharedIds.RunIsSound | jasmin/routing/throwers.py:102-220 | In every run, with any number of messages under one id and throws that overlap, a message has one broker call for each delivery but the one under way, held or lost, and every timer is for a message that is out of the queue. |
| SharedIds.LostStep | jasmin/routing/throwers.py:136-205 | A step loses a message exactly when it abandons its throw, or takes the timer that holds it for another message of its id. |
| SharedIds.LostIff | jasmin/routing/throwers.py:136-205 | In every run a message is out of the queue with no timer exactly when one of these steps has happened, and then for good. |
| SharedIds.AloneLostIff | jasmin/routing/throwers.py:400-421 | A message with an id to itself is lost exactly when a throw of it is abandoned. |
| SharedIds.SecondLosesFirst | jasmin/routing/throwers.py:557-565 | Of two receipts under one id the first is lost if it is held when the second is handed over, whatever comes of that. |
| Throwers.EveryThrowSettled | jasmin/routing/throwers.py:102-122 | In every run a message that has its id to itself and meets no exhausted failover route has each throw end in one broker call or one timer, and is thrown at most `max_retries` + 1 times, whatever befalls others. |
| SubmitListener.NothingIsLost | jasmin/managers/listeners.py:92-291 | In every run, connector stops included, each delivery is answered by one broker call or held by one timer, and an unsettled message is in the queue or held. |
| SubmitListener.StopReturnsAll | jasmin/managers/clients.py:440-456 | After a stop no timer is left, every unsettled message is in the queue, and every delivery has been answered once. |
| SubmitListener.AgeLimitKeptIff | jasmin/managers/listeners.py:190-212 | The age limit decides about a message for a connector that is not ready exactly when its age is within the limit, or exceeds it by the seconds past whole days too. |
| SubmitListener.NeverDropped | jasmin/managers/listeners.py:190-212 | In every run a message only ever met while not ready, at ages whose seconds past whole days are within the limit, is never dropped. |
| SubmitListener.OfferedForever | jasmin/managers/listeners.py:190-212 | For any list of such ages there is a run that offers it that often and keeps it. |
| SubmitListener.RetriedIff | jasmin/managers/listeners.py:376-388 | An answered message returns to the queue exactly when it was an error whose retry count exceeds the number of its deliveries. |
| SubmitListener.DeliveryEnds | jasmin/managers/listeners.py:130-291 | What each outcome of a delivery comes to for the broker, the timer and the counter in any run: a time-out or a failed long message is held, not dropped; an error is retried while retries are left; unreadable, foreign, expired, invalid and broken messages are rejected for good. |
| SubmitListener.ErrorRetriesBounded | jasmin/managers/listeners.py:376-388 | A message that is always answered is submitted at most as often as the largest retry count. |
| SubmitListener.Listener.constructor | jasmin/managers/listeners.py:35-64 | A listener starts without counters and timers. |
| SubmitListener.Listener.ClearRejectTimer | jasmin/managers/listeners.py:70-75 | The timer under the key is gone and no other. |
| SubmitListener.Listener.RejectAndRequeueMessage | jasmin/managers/listeners.py:92-119 | With a delay the message is held by one timer, without it is returned at once. |
| SubmitListener.Listener.RejectMessage | jasmin/managers/listeners.py:121-123 | One basic_reject. |
| SubmitListener.Listener.TimerFired | jasmin/managers/listeners.py:107-110 | The held message is returned once. |
| SubmitListener.Listener.CountDelivery | jasmin/managers/listeners.py:144-148 | The delivery is counted. |
| SubmitListener.Listener.SubmitSmRespEvent | jasmin/managers/listeners.py:294-434 | What a response does to the counter, the timer, the broker and the notices, retried or final. |
| SubmitListener.Listener.SubmitSmCallback | jasmin/managers/listeners.py:130-291 | A whole delivery, whatever came of it, has the effect of `Handle`, and a notice goes out exactly for an answered one. |
| SubmitListener.Listener.ReturnOne | jasmin/managers/clients.py:443-451 | An active timer is called off and its message returned; one that has fired is left. |
| SubmitListener.Listener.ReturnHeld | jasmin/managers/clients.py:440-456 | Stopping returns each held message exactly once and leaves no timer. |
| LongMessages.CountInOctets | jasmin/protocols/smpp/operations.py:170-199 | The number of parts, computed in septets, octets or code units, is the number of strides that cover the content. |
| LongMessages.PartsCarryContent | jasmin/protocols/smpp/operations.py:195-259 | The parts carry the content in order: all of it, or the first cap × stride octets when the cap is hit. |
| LongMessages.PartsAreSound | jasmin/protocols/smpp/operations.py:203-246 | No part is empty or too long for a short message, all but the last are full, and 16-bit characters are not cut. |
| LongMessages.CutByDataCoding | jasmin/protocols/smpp/operations.py:166-246 | For every data_coding value: contents up to 160 octets, or 140 for 2 to 10, 13 and 14, are left whole, others are cut into runs of 153 or 134 octets, each marked with its number, the last of those with a header having no more to send. |
| SubmitFactory.RefsDistinct | jasmin/protocols/smpp/operations.py:151-157 | Reference numbers are 1 to 255 and come round after exactly 255 claims. |
| SubmitFactory.OperationFactory.constructor | jasmin/protocols/smpp/operations.py:48-57 | The first claim will give reference 1. |
| SubmitFactory.OperationFactory.ClaimLongMsgRefNum | jasmin/protocols/smpp/operations.py:151-157 | The counter moves to the next reference, which is returned. |
| SubmitFactory.OperationFactory.SubmitSM | jasmin/protocols/smpp/operations.py:159-259 | A chain of new objects holds exactly the parts; a reference is claimed for a long content only. By data_coding: several parts are made only of more than 140 octets (160 for 7-bit codings), none carries over 134 (153), and an even content of two-octet characters has even bodies. |
| SubmitFactory.BuildPart | jasmin/protocols/smpp/operations.py:213-246 | One pass of the loop builds the segment with its SAR options or its user data header. |
| SubmitFactory.PartsAreSegments | jasmin/protocols/smpp/operations.py:195-217 | The parts of a long content are its segments, 1 to 255 of them, none beginning beyond its end. |
| SubmitFactory.AppendPdu | jasmin/protocols/smpp/operations.py:206-255 | Linking a new object behind the last lengthens the chain by one part and disturbs no other. |
| SubmitFactory.BuildChain | jasmin/protocols/smpp/operations.py:203-255 | The loop builds the chain of all parts. |
| SubmitFactory.ConcatChain | jasmin/managers/listeners.py:323-351 | Walking the chain of an answered message reads what `ReadOff` says, and bills one amount for every part it meets. |
| SubmitFactory.ReadOffIff | jasmin/managers/listeners.py:323-351 | The walk reads the whole content and bills for every part exactly when the parts are marked or there is only one. |
| Reassembly.Listener.constructor | jasmin/managers/listeners.py:35-64 | No part is stored at first. |
| Reassembly.Listener.Receive | jasmin/managers/listeners.py:480-535 | A received part is stored and, when it completes its message, the concatenation is handed on. |
| Reassembly.CompleteIff | jasmin/managers/listeners.py:480-510 | For every hash and every sequence of arrivals, repeats included, an arrival yields a message exactly when it is that of the highest-numbered part and finds exactly the other fields. |
| Reassembly.IncompleteIff | jasmin/managers/listeners.py:480-516 | The other outcomes, exactly: a number already there is passed over, any but the highest waits, and the highest finds the wrong number of fields, or the right number without all of 1 to n. |
| Reassembly.DetectedIff | jasmin/managers/listeners.py:692-724 | An incoming message counts as a part exactly when it has the SAR options or, not of class 2, a complete user data header of a concatenation, and the numbers are those it carries. |
| Reassembly.CompleteContent | jasmin/managers/listeners.py:498-535 | What is handed on is made field by field of the parts that arrived, and of what was left over for the others. |
| Reassembly.AllOwnIff | jasmin/managers/listeners.py:489-496 | All fields are of the message itself exactly when its highest-numbered part came last. |
| Reassembly.ReassembledIff | jasmin/managers/listeners.py:480-535 | An arrival hands on the message from its own parts alone exactly when it is the last, that of the highest-numbered part, and every left-over field is numbered below. |
| Reassembly.ReassembledContent | jasmin/managers/listeners.py:498-535 | Then the content handed on is that of the message. |
| Reassembly.ReassembledOnlyInOrder | jasmin/managers/listeners.py:489-496 | At an empty hash exactly the last arrival can yield the message, and does exactly when it is that of the highest-numbered part. |
| Reassembly.StitchedFromTwo | jasmin/managers/listeners.py:489-535 | With the fields of one message left over and the last part of a longer one first to come, the former content with the new last part is handed on. |
| Reassembly.SplitThenReassemble | jasmin/protocols/smpp/operations.py:159-259 | Splitting and reassembling is the identity on contents the cap allows, and the first cap × stride octets of others. |
| Reassembly.ReusedReference | jasmin/managers/listeners.py:482-496 | A second message under the same key is put together exactly when it has more parts. |
| LongTransactions.TransactionsAreRight | jasmin/protocols/smpp/protocol.py:163-238 | In every run with clean references an open transaction counts its unanswered parts, at least one, and its deferred is called exactly once after, with success exactly when all parts were answered in time, and then with the status of the last answer. |
| LongTransactions.SendSafeIffClean | jasmin/protocols/smpp/protocol.py:300-341 | No response after a send makes a count or a deferred wrong exactly when its reference is neither open nor awaited. |
| LongTransactions.SendKeepsRight | jasmin/protocols/smpp/protocol.py:300-341 | A send with such a reference keeps the bookkeeping right. |
| LongTransactions.LastStatusReported | jasmin/protocols/smpp/protocol.py:225-238 | In every run with clean references a message answered in full is reported with the status of its last answer, whatever the others said. |
| LongTransactions.OpenEndsIff | jasmin/protocols/smpp/protocol.py:157-238 | An open transaction ends exactly by its timer, by a cancellation or by the response to its last awaited request, and its deferred says which. |
| LongTransactions.EveryPartKept | jasmin/protocols/smpp/protocol.py:300-341 | In every run with clean references each part of an open message has been sent, and is awaited exactly until it is answered or fails. |
| LongTransactions.RefusalGoesUnreported | jasmin/protocols/smpp/protocol.py:140-148 | A message whose first part is refused with any error and whose second is accepted is reported as accepted. |
| LongTransactions.CollisionMisleads | jasmin/protocols/smpp/protocol.py:322-333 | A concrete run in which a collision makes a message succeed that was not answered in full. |
| LongTransactions.ResponseKeepsRight | jasmin/protocols/smpp/protocol.py:210-238 | A response keeps the bookkeeping of every transaction right. |
| LongTransactions.CancelKeepsRight | jasmin/protocols/smpp/protocol.py:157-170 | Cancelling everything fails each open deferred once and keeps the bookkeeping right. |
| LongTransactions.ClientProtocol.constructor | jasmin/protocols/smpp/protocol.py:30-33 | No transaction is open at first. |
| LongTransactions.ClientProtocol.StartTransaction | jasmin/protocols/smpp/protocol.py:177-196 | A transaction is opened unless its reference is in use. |
| LongTransactions.ClientProtocol.SendPart | jasmin/protocols/smpp/protocol.py:305-328 | A request is recorded under the next sequence number. |
| LongTransactions.ClientProtocol.SendLong | jasmin/protocols/smpp/protocol.py:300-341 | Sending a long message has the effect of `AfterSend`, the refused one included. |
| LongTransactions.ClientProtocol.CloseTransaction | jasmin/protocols/smpp/protocol.py:198-208 | The transaction is gone and its deferred has been called once. |
| LongTransactions.ClientProtocol.ResponseReceived | jasmin/protocols/smpp/protocol.py:210-238 | A response of any status counts as an answer, with the effect of `AfterResponse`; the one that ends the count calls the deferred of the transaction with its own status. |
| LongTransactions.ClientProtocol.PartFailure | jasmin/protocols/smpp/protocol.py:240-245 | A failed request is forgotten, its transaction left to its timer. |
| LongTransactions.ClientProtocol.TransactionTimeout | jasmin/protocols/smpp/protocol.py:172-175 | The timer closes the transaction with a time-out. |
| LongTransactions.ClientProtocol.CancelTransactions | jasmin/protocols/smpp/protocol.py:157-170 | The loop closes every open transaction and fails each deferred once. |
| Billing.BillSplitsRate | jasmin/routing/Routes.py:81-114 | The two parts of a bill are non-negative and make up the rate, the first being the early percentage of it, or all; anything to pay means something to pay at once. |
| Billing.TimesIsProduct | jasmin/routing/router.py:337-346 | Charging for each part is multiplying by the number of parts. |
| Billing.ChargeAtomicIff | jasmin/routing/router.py:331-363 | A declined charge changes the quotas exactly when balance sufficed and count did not. |
| Billing.MetWhenFair | jasmin/protocols/smpp/factory.py:442-462 | The requirements hold exactly when the balance covers the whole price and the count all parts. |
| Billing.SubmitAllOrNothing | jasmin/protocols/smpp/factory.py:442-466 | Under them a charge is all or nothing, and leaves enough for the part due on the response. |
| Billing.NextConserves | jasmin/routing/router.py:235-262 | No event but a top-up changes what a user has plus what they have spent. |
| Billing.BalanceIsConserved | jasmin/routing/router.py:319-363 | In every run the balance is what the user was given less all accepted debits, and never negative. |
| Billing.NobodyOverpays | jasmin/managers/listeners.py:299-351 | In every run the early percentage of rate × parts is debited at once and the rest is due for the parts billed; at most rate × parts is debited, and all of it exactly when the route is free, or the balance was limited and nothing was due later, or the response was billed for every part and the request accepted. |
| Billing.MessageWasSent | jasmin/routing/router.py:319-363 | The rate, percentage, parts and amounts kept with a message are those of the send that was accepted, at the percentage the user had then. |
| Billing.AskedForIff | jasmin/managers/listeners.py:305-351 | In every run the second part of a price is asked for exactly when something is due and the message was answered with success. |
| Billing.CoveredRequestIsPaid | jasmin/routing/router.py:235-262 | A bill request of a user whose balance covers all debts is accepted. |
| Billing.NextKeepsCoveredIff | jasmin/protocols/smpp/factory.py:442-466 | The cover ends exactly with an accepted message priced above what is free of the balance. |
| Billing.EveryRequestIsPaid | jasmin/managers/listeners.py:436-446 | In a run without such a message every handled bill request was paid. |
| Billing.UncoveredLosesSome | jasmin/routing/router.py:251-257 | Without cover and without more money the debts cannot all be asked for and settled. |
| Billing.SecondPartCanBeLost | jasmin/routing/router.py:251-257 | A concrete run in which an accepted message's second part is refused. |
| Billing.MtCredential.SetBalance | jasmin/routing/jasminApi.py:144-161 | A negative balance is refused and changes nothing. |
| Billing.MtCredential.UpdateBalance | jasmin/routing/jasminApi.py:80-94 | The difference is added, an unlimited balance counting as zero. |
| Billing.MtCredential.UpdateCount | jasmin/routing/jasminApi.py:80-94 | The same for the message count. |
| Billing.SubmitSmBill.SetAmount | jasmin/routing/Bills.py:55-61 | Only the bill's own amounts can be set. |
| Billing.SubmitSmBill.GetTotalAmounts | jasmin/routing/Bills.py:47-53 | The total is the sum of both amounts. |
| Billing.GetBillFor | jasmin/routing/Routes.py:81-114 | With a limited balance and a positive rate the bill is the percentage of the rate now and the rest later, or all of it now without a percentage; otherwise nothing. Parts are counted exactly with a limited count. |
| Billing.ChargeUserForSubmitSms | jasmin/routing/router.py:319-363 | The verdict and the quotas afterwards are those of `Charge`; an unknown user makes it fail only when there is something to charge. |
| Billing.BillRequestCallback | jasmin/routing/router.py:235-262 | A request is acknowledged, and its amount debited, exactly when the balance covers it; unsettled exactly for an unlimited balance; else rejected without a change. |
| RoutingTables.Route.constructor | jasmin/routing/Routes.py:39-67 | A new route keeps its filters and connectors; a failover route stands before its first connector. |
| RoutingTables.Route.MatchFilters | jasmin/routing/Routes.py:116-127 | A route matches when all its filters do, a default route always; a failover route starts over. |
| RoutingTables.Route.GetConnector | jasmin/routing/Routes.py:302-307 | A failover route yields its connectors one after the other and then none. |
| RoutingTables.FirstBound | jasmin/protocols/smpp/factory.py:397-418 | The first bound position: bound itself, none before it. |
| RoutingTables.ChooseConnector | jasmin/protocols/smpp/factory.py:397-424 | The loop ends with the first bound connector, and with none exactly when none is bound. |
| RoutingTables.SortedKeeps | jasmin/routing/RoutingTables.py:62-63 | Sorting keeps every route under its order, highest order first. |
| RoutingTables.RoutingTable.constructor | jasmin/routing/RoutingTables.py:20-21 | A new table is the empty map. |
| RoutingTables.RoutingTable.Add | jasmin/routing/RoutingTables.py:23-63 | A route is accepted exactly when order, type and connectors fit, and a refusal names which does not; then the map has it under its order, else nothing changed. |
| RoutingTables.RoutingTable.Remove | jasmin/routing/RoutingTables.py:65-71 | The map loses that order and no other, and the result says whether it was there. |
| RoutingTables.RoutingTable.Flush | jasmin/routing/RoutingTables.py:76-77 | The map is empty. |
| RoutingTables.RoutingTable.GetRouteFor | jasmin/routing/RoutingTables.py:79-91 | The matching route of greatest order; none exactly when nothing matches, so never while there is a default. |
| RoutingTables.RouteSubmitSm | jasmin/protocols/smpp/factory.py:390-424 | Lookup and choice together, whatever was routed before: the first bound connector of the matching failover route of greatest order, or the connector of a simple one. |
| Throttle.RoundHalfEven | jasmin/protocols/smpp/factory.py:429-430 | The period is rounded to the nearest microsecond, halves to even. |
| Throttle.Gate.constructor | jasmin/routing/jasminApi.py:268 | Nothing was accepted at first. |
| Throttle.Gate.Submit | jasmin/protocols/smpp/factory.py:426-440 | A submission is refused exactly when it comes within a period of the last accepted one, and then leaves no stamp. |
| Throttle.Gate.SubmitAll | jasmin/protocols/smpp/factory.py:426-440 | A history of attempts is stamped as `Stamps` says. |
| Throttle.StampsApart | jasmin/protocols/smpp/factory.py:426-440 | Accepted submissions are at least a period apart. |
| Throttle.WindowIsBounded | jasmin/protocols/smpp/factory.py:426-440 | A window of length T passes at most floor(T / period) + 1 of them. |
| Throttle.PatientIsNeverRefused | jasmin/protocols/smpp/factory.py:426-440 | Attempts a period apart are all accepted. |
| Bindings.AccountIsRight | jasmin/protocols/smpp/factory.py:626-680 | After every run of binds, closed connections and harmless changes of users the counters count the live connections of each type, the roster lists each once, and a system id is present exactly while it has a binding. |
| Bindings.NextKeepsRight | jasmin/protocols/smpp/factory.py:553-584 | Each bind, each closed connection and each harmless change keeps this. |
| Bindings.MaxBindingsHold | jasmin/protocols/smpp/factory.py:586-609 | An accepted bind that is counted in the status its limit was looked up in leaves at most `max_bindings`. |
| Bindings.BindAcceptedIff | jasmin/protocols/smpp/factory.py:586-609 | In every run a bind is accepted exactly if the user may bind and the connections live in the status it looks up are fewer than its limit, and changes nothing otherwise. |
| Bindings.MaxBindingsNeverExceeded | jasmin/protocols/smpp/factory.py:586-609 | A limit that is there from the start, looked up where binds are counted and not raised, is never exceeded in any run. |
| Bindings.LimitHoldsIff | jasmin/routing/jasminApi.py:339-345 | However often a user binds from here on its limit holds, exactly when binds are counted where it is looked up or the user cannot bind. |
| Bindings.AddedKeepsRightIff | jasmin/routing/router.py:716-726 | Adding a user keeps the account right exactly when it gives no uid that has bound connections the status of someone else. |
| Bindings.ReplacementShares | jasmin/routing/router.py:716-726 | A user who replaces another of the same username has its binds counted where its limit is looked up. |
| Bindings.RecreatedUserExceeds | jasmin/routing/router.py:769-779 | A run: a user with a limit of one, removed while bound and added under another uid, ends with two bindings. |
| Bindings.TakenOverStatusGoesNegative | jasmin/routing/router.py:716-726 | A run: a user added under the uid of a bound one and the username of a third leaves the third counted at minus one. |
| Bindings.SmppServerFactory.constructor | jasmin/routing/jasminApi.py:251-266 | Nobody is bound at first. |
| Bindings.SmppServerFactory.GetCnxStatus | jasmin/routing/jasminApi.py:291-296 | The status a uid looks up, one of zeroes when it never had any. |
| Bindings.SmppServerFactory.UserAdd | jasmin/routing/router.py:716-726 | The first user with the uid or the username is replaced and leaves its status to the new one. |
| Bindings.SmppServerFactory.UserRemove | jasmin/routing/router.py:769-782 | The first user with the uid goes, statuses and connections stay. |
| Bindings.SmppServerFactory.CanOpenNewConnection | jasmin/protocols/smpp/factory.py:586-609 | A bind is allowed exactly to an authorised user below the limit, over the three types together. |
| Bindings.SmppServerFactory.AddBoundConnection | jasmin/protocols/smpp/factory.py:553-563 | Manager, counter and roster change as `Bound` says. |
| Bindings.SmppServerFactory.CountBinding | jasmin/protocols/smpp/factory.py:634-652 | The bind is counted and listed in the status of the manager's user. |
| Bindings.SmppServerFactory.DoBindRequest | jasmin/protocols/smpp/protocol.py:572-591 | A bind is accepted exactly on a session not yet bound and below the limit, and otherwise changes nothing. |
| Bindings.SmppServerFactory.RemoveConnection | jasmin/protocols/smpp/factory.py:568-584 | Manager, counter and roster change as `Unbound` says, the last binding taking the manager along. |
| TlvRules.SplitJoin | jasmin/protocols/cli/smppccm.py:68-131 | Splitting a text joined from pieces without the separator gives the pieces back. |
| TlvRules.ParseTlvString | jasmin/protocols/cli/smppccm.py:68-131 | The parser's loop returns the rules, or the error of the first bad entry, that the specification gives. |
| TlvRules.EntryAcceptedIff | jasmin/protocols/cli/smppccm.py:68-131 | An entry is accepted exactly with three fields or more: a number, the name of a type, a positive length or none, and a flag if there is a fourth; a refusal names the first that is wrong. |
| TlvRules.EntryMeans | jasmin/protocols/cli/smppccm.py:68-131 | What an accepted entry says, field by field; one of three fields is optional. |
| TlvRules.FourDigits | jasmin/protocols/cli/smppccm.py:54-63 | A tag of two octets is printed with four digits, a sign taking the place of one. |
| TlvRules.PrintTlvs | jasmin/protocols/cli/smppccm.py:54-63 | The printer's loop returns the specified text. |
| TlvRules.RuleRoundTrip | jasmin/protocols/cli/smppccm.py:54-131 | A printed rule is read back as itself: tag, type, length or none, flag. |
| TlvRules.ParsePrint | jasmin/protocols/cli/smppccm.py:54-131 | A printed list is read back as itself exactly when no tag is negative. |
| TlvRules.PrintNormalises | jasmin/protocols/cli/smppccm.py:54-131 | Whatever the parser accepts without negative tags prints to a text that parses to the same rules. |
| TlvCodec.BigEndianRoundTrip | jasmin/tools/tlv_encoder.py:184-203 | A number that fits is read back from its octets. |
| TlvCodec.IntegerBody | jasmin/tools/tlv_encoder.py:184-203 | An integer body has 1, 2, 4 or 8 octets as its type says, exists exactly for the integers below 2 to the 8, 16, 32 or 64, and is read back as the integer. |
| TlvCodec.OtherBodies | jasmin/tools/tlv_encoder.py:184-203 | Octets are taken as they are; text and numbers are written in UTF-8, with a NUL behind them for a COctetString; an integer may be given as text. |
| TlvCodec.Utf8RoundTrip | jasmin/tools/tlv_encoder.py:197-203 | A character is written as the fewest octets that stand for it in UTF-8. |
| TlvCodec.TupleShapes | jasmin/tools/tlv_encoder.py:277-294 | Tuples of three and two are tuples of four without length, or without type; shorter ones leave nothing; the tag is taken modulo 2 to the 16. |
| TlvCodec.WireIs | jasmin/tools/tlv_encoder.py:290-292 | A frame is the tag and the length, two octets each, higher first, and the body. |
| TlvCodec.ReadWire | jasmin/tools/tlv_encoder.py:386-396 | Reading headers and bodies off the octets of any frames gives the frames. |
| TlvCodec.WireRead | jasmin/tools/tlv_encoder.py:386-396 | Writing the frames read off any well-formed octets gives the octets. |
| TlvCodec.EncodeCustomTlvs | jasmin/tools/tlv_encoder.py:266-294 | The octets are read back as the masked tags and bodies in order; it raises exactly when a value cannot be encoded or a body is too long. |
| TlvCodec.CaptureThenEncode | jasmin/tools/tlv_encoder.py:386-410 | TLVs captured from well-formed octets encode to those octets. |
| TlvPolicy.ResolveTlvTypes | jasmin/tools/tlv_encoder.py:151-181 | Every tuple without a type gets the type of the last rule for its tag, and its text is turned into a number where the type needs one. |
| TlvPolicy.ResolvedByRule | jasmin/tools/tlv_encoder.py:165-181 | The last rule for the tag gives the type; text is read as a number for the integer types, and raises if it is none. |
| TlvPolicy.ResolvedWithoutRule | jasmin/tools/tlv_encoder.py:171-181 | Without a rule the type is OctetString; what has a type or fewer than four items stays as it is. |
| TlvPolicy.ValidateCustomTlvs | jasmin/tools/tlv_encoder.py:212-263 | Passes exactly when the last tuple of every tag meets every rule, and otherwise names the fault of the first rule not met. |
| TlvPolicy.FaultIs | jasmin/tools/tlv_encoder.py:234-262 | The fault named is a missing tag exactly if no tuple carries it, else that the last that does cannot be encoded or is too long. |
| TlvPolicy.EarlierDuplicateUnchecked | jasmin/tools/tlv_encoder.py:212-263 | A TLV followed by one of the same tag makes no difference to any rule. |
| TlvPolicy.PolicyHoldsOnTheWire | jasmin/tools/tlv_encoder.py:266-294 | With no tag twice, a list passes exactly the rules that its frames obey on the wire. |
| TlvPolicy.ObeyedIff | jasmin/tools/tlv_encoder.py:212-294 | A list that meets a rule obeys it on the wire exactly when it has no earlier TLV of that tag with too long a body. |
| TlvPolicy.ValidListBreaksRule | jasmin/tools/tlv_encoder.py:212-263 | A list of two that is valid and breaks the rule on the wire. |
| TlvPolicy.CheckedListObeysRules | jasmin/tools/tlv_encoder.py:151-294 | Resolved, checked and encoded, a list without repeated tags reads back as frames that obey every rule. |


## Left out

- Twisted, txamqp, txredisapi, smpp.pdu and smpp.twisted: broker, Redis, timers, the base bind manager and the request layer are small abstract states here.
- Interleaving of handlers at the points where they wait: each handler is one step, but for the throws in `SharedIds`.
- The stop of a thrower, which clears its timers and leaves their messages to the closing of the channel.
- Delivery tags that change from one delivery of a message to the next.
- The expiry of stored parts: a part may find any fields under its key.
- The library's own encoder of optional parameters, through which submit_sm leaves in production; `TlvCodec` is the gateway's encoder and decoder of custom TLVs.
- Text outside ASCII in numerals and identifiers: Python's `int` also reads other digits.
- Content sent in `message_payload`, and contents given as text rather than octets.
- Exceptions inside the handling of a response after which it neither acknowledges nor requeues.
- A quota stored as an integer, which refuses a fractional update; money is exact rather than floating point.
- Removal of a user in the middle of a billing history; the charge and the bill request of an unknown user are modelled singly.
- Administrative updates that make a balance negative, which nothing in the code refuses.
- The pacing delay of a connector, and the wrap-around of SMPP sequence numbers.
- Statuses as objects that users share: they are found by name here, and the sharing is of names.
- The group of a user being added, and a session that goes on with a user object the router has since replaced.
- Throwers of one process with different retry limits, although they share their counters: one limit holds for all.
- Sessions without a session id, and the peer addresses and times in the roster.
- Round-robin routes, whose connector is a random choice, and interception tables, which repeat the routing table's algorithm.
- Filters, interceptor scripts, authentication and IP whitelists: a filter is any predicate, an authenticated user a parameter.
- The HTTP endpoints other than the requirements they put to a charge; configuration, persistence, statistics, the console and the daemons.
