# Verified model of ntex-mqtt

ntex-mqtt is an MQTT 3.1.1 and 5.0 client and server framework. This project models the stateful
algorithms under its asynchronous plumbing and proves what they promise, for every input and every
run. `dafny verify dfyconfig.toml` checks it.

| file | models |
|---|---|
| `ReorderBuffer.dfy`, `ReorderLaws.dfy` | the response reorder buffer of the dispatcher: out-of-order service calls, in-order responses |
| `ReadTimer.dfy` | the frame read timer and its extensions |
| `OutboundWindow.dfy`, `WindowCredit.dfy`, `WindowOrder.dfy`, `WindowWire.dfy`, `WindowIds.dfy`, `WindowReports.dfy`, `WindowCallback.dfy`, `WindowTeardown.dfy`, `WindowLaws.dfy`, `SharedState.dfy` | the outbound window: in-flight FIFO, packet ids, waiters, flow control, callback, teardown |
| `InFlight.dfy`, `Inbound.dfy`, `InboundLaws.dfy` | the in-flight counter; packet-id ownership, receive maximum and topic aliases of inbound packets |
| `TopicFilter.dfy`, `TopicMatch.dfy`, `TopicText.dfy` | topic filters: two validators, parser, printer, topic matching, filter inclusion |
| `Wire.dfy`, `Types.dfy`, `Layout.dfy`, `Utf8.dfy` | integers, strings, variable byte integers, and their bytes |
| `Frame.dfy`, `FrameLayout.dfy` | the incremental frame decoder of both codecs |
| `V3Codec.dfy`, `V3RoundTrip.dfy`, `V3Layout.dfy`, `V3Accepts.dfy` | the complete MQTT 3.1.1 packet set |
| `V5Props.dfy`, `V5Codec.dfy`, `V5RoundTrip.dfy`, `V5Publish.dfy`, `V5Stream.dfy`, `V5Limit.dfy`, `V5Layout.dfy` | MQTT 5 packets, the size-limited encoder and its decoder |

Code that works in place is a class (`Dispatcher`, `FrameTimer`, `MqttShared`, `CounterInner`,
`Decoder`, `Codec`) or a method with a loop, proved against a specification on values; concurrent
code is a sequence of events, one per piece of code between two suspension points, in any order. The
run properties are proved about the specification, and a driver method (`Run`, `RunEvents`, `Receive`)
proves that the code reaches the state of the specification for every sequence of events.

## Findings

Where the code does not meet a property everywhere, the model keeps the code as it is, shows an input
and proves exactly when the property holds:

- A fresh sender can overtake a signalled waiter and exceed the peer's receive maximum
  (`OvertakingExceedsReceiveMaximum`; exact condition: `ReceiveMaximum`).
- A non-blocking send is registered without checking for a publish-ack callback, although its
  documentation says that it panics without one; the acknowledgement then panics instead
  (`MissingCallbackPanics`; exact conditions: `PanicsExactly`, `GuardedRunsAreSafe`, `PeerCanPanic`).
- A signalled sender that is dropped, or a completed `ready`, takes its credit with it and can strand
  another sender (`DroppedSignalStrandsSender`; exact condition: `NoLostCredit`).
- Subscribe and unsubscribe register before they encode: one that the codec refuses stays in the FIFO, and
  the correct acknowledgement of the next packet closes the connection
  (`RefusedSubscribeClosesConnection`; exact conditions: `WireOrderedExactly`, `PhantomMakesAckClose`).
- Clearing the queues leaves the ids in flight reserved (`CloseLeavesIdBehind`; exact condition:
  `IdSetExact`).
- A sender signalled before a close resumes after it and is never resolved (`LateResumeStrandsSender`;
  exact conditions: `TeardownExact`, `ResolvedAtTheEnd`).
- Publishes that do not encode use up packet ids, so an id can be in use with one packet in flight
  (`FailedEncodesExhaustIds`; exact condition for the ids to follow their cycle: `CyclicExactly`).
- `matches_filter` lets `#` and `+` include `$` filters whose topics they do not match, and misses
  `+/#` over `#` (`HashClaimsSystemTopics`; exact condition: `MatchesFilterExactly`). CHANGES.md calls
  the relation a strict superset; the code and its tests accept equality, and the model follows the code.
- A maximum outbound size of five or less is exceeded by the fixed header (`TinyMaximumExceeded`;
  exact condition: `MaximumPacketSize`).
- Under a limit below seven, a publish acknowledgement with diagnostics is refused instead of trimmed
  (`ReasonStringRefused`; exact condition: `DiagnosticsRefused`).
- A MQTT 3.1.1 packet of 2^32 bytes or more is framed with a truncated length (`OversizedFrame`; exact
  condition: `FrameHonest`), and a CONNECT without client id and clean session encodes but does not
  decode (`NamelessConnectRefused`; exact condition: `ConnectRoundTrip`).
- Subscriptions in progress and ids abandoned by failed calls count against the inbound receive maximum
  (`SubscriptionGetsPublishAccused`, `FailedPublishGetsNextAccused`; exact condition: `AccusedExactlyWhen`).
- Write back-pressure right after an extension of the frame read timer can have a silent period pass the
  rate test (`ThrottledSilenceExtends`; exact condition: `SilentPeriodPasses`). Without it a silent peer
  always times out (`UnthrottledPeriodIsMeasured`).
- 65,536 live guards make the 16-bit in-flight count wrap under a waiting task (`OverflowLosesWakeup`;
  exact condition: `WaitersAreWoken`); callers that wait for `ready` cannot do so.

## Model

| member | source | states |
|---|---|---|
| ReorderBuffer.Run | src/io.rs:174-438 | for every sequence of calls, immediate results, completions in any order, errors, stops and drains, the packets handed to the encoder are the responses of the longest completed prefix of calls: there is a strictly increasing list of call numbers, exactly the completed-prefix calls that answered with a packet, and the k-th attempt is the packet of the k-th of them; phase, pending error and wake-ups are those of a reference machine that has no indices and no deque |
| ReorderBuffer.EmissionsOnlyGrow | src/io.rs:182-222 | whatever happens later, nothing handed to the encoder is taken back, reordered or repeated |
| ReorderBuffer.TerminatedIsDrained | src/io.rs:332-345 | a dispatcher that has shut down has no outstanding call and has retired the outcome of every call, in order |
| ReorderLaws.OutcomeIsSupplied | src/io.rs:239-250 | in every run the outcome of a call is exactly the one carried by its own completion, or by the immediate result with which it was issued while the dispatcher held no other call |
| ReorderLaws.ResultsLaw | src/io.rs:395-438 | a step adds at most one call, known at once only if it is ready and none is held, and changes no other outcome than that of the call it completes |
| ReorderLaws.HeldLaw | src/io.rs:399-422 | the dispatcher holds the first call that is not ready at once, until that call completes |
| ReorderLaws.WakeLaw | src/io.rs:217-219 | the io is woken exactly when a spawned call completes as the last one outstanding |
| ReorderLaws.PhaseLaw | src/io.rs:332-345 | stop and a pending error stop the dispatcher, and a drain ends it exactly when nothing is outstanding |
| ReorderLaws.LastErrorPends | src/io.rs:188-214 | the pending error is the last one raised in call order: a service failure, or a packet that did not encode |
| ReorderLaws.NoNewError | src/io.rs:188-214 | while retired outcomes are responses that encode, or none, the pending error stays what it was |
| ReorderLaws.ErrorLaw | src/io.rs:440-460 | errors are raised by retired outcomes only, and the error check consumes an encoder error and keeps a service error |
| ReorderLaws.FullIs | src/io.rs:416-429 | a call is held off only when the deque would outgrow a `usize` |
| ReorderBuffer.BehaviourSane | src/io.rs:239-250 | in every run the future the dispatcher polls itself belongs to an outstanding call, and Shutdown is only reached with nothing outstanding |
| ReorderBuffer.FuturesAppend | src/io.rs:416-429 | a call gets a wrapped index that falls on its own new slot; every other outstanding call keeps its slot |
| ReorderBuffer.FuturesFinish | src/io.rs:182-221 | after a result is filed and a completed prefix popped, every remaining future's wrapped index still falls on its own Pending slot, also across the wrap of `base` |
| ReorderBuffer.CompleteView | src/io.rs:174-223 | filing one result and popping the completed front is, seen from outside, learning that call's outcome |
| ReorderBuffer.CallReadyView | src/io.rs:399-418 | the fast path that encodes at once agrees with queueing the result: it is taken exactly when nothing is outstanding |
| ReorderBuffer.CallPendingView | src/io.rs:419-429 | issuing a call that is not ready adds one outstanding call, held by the dispatcher if it holds none |
| ReorderBuffer.Dispatcher.Flush | src/io.rs:185-219 | the drain loop retires the answered slot and the Ready slots behind it, moves `base` by that number and stops in front of a Pending slot |
| ReorderBuffer.Dispatcher.HandleResult | src/io.rs:174-223 | the result lands in the slot of its own call, found by the wrapped difference, and everything that became due is retired |
| ReorderBuffer.Dispatcher.CallService | src/io.rs:395-438 | refines the call step of the reference machine and keeps the invariant (front slot Pending, one distinct Pending slot per future) |
| ReorderBuffer.Dispatcher.Finish | src/io.rs:239-250 | refines completion of any outstanding call, held or spawned; a call that is not outstanding has no future |
| ReorderBuffer.Dispatcher.React | src/io.rs:332-345 | every step, including the error check and the Stop arm, refines the reference machine and keeps the invariant |
| ReadTimer.RunKeepsPaid | src/io.rs:546-581 | in every run the budget left plus the extensions granted, times the period, is the configured maximum |
| ReadTimer.ReadDeadline | src/io.rs:512-581 | whatever arrives and whenever, a running frame timer has been extended at most `ceil(max / timeout) - 1` times |
| ReadTimer.SteadyFrameRunsOut | src/io.rs:546-581 | the bound is tight: a frame that keeps the rate is extended exactly that often and then fails with a read timeout |
| ReadTimer.RateTestExact | src/io.rs:550-556 | the wrapping, clipped comparison is right about two counts if and only if the second is not below the first, up to the wrap itself |
| ReadTimer.RunTracked | src/io.rs:283-290 | in every run the two cells hold the bytes really buffered at the ends of the period, except 0 where a period passed without a decode round |
| ReadTimer.DifferenceMeasures | src/io.rs:512-556 | in every run the tested difference is the number of bytes that arrived in the period if and only if both ends miss equally many |
| ReadTimer.UnthrottledPeriodIsMeasured | src/io.rs:260-290 | in every run without write back-pressure after an expiry, the test is right about a period if and only if the buffer did not shrink, and a peer that sent nothing gets a read timeout at the next expiry |
| ReadTimer.SilentPeriodPasses | src/io.rs:291-294 | in every run a silent period passes the test if and only if a decode round is missing at exactly one end of it and the bytes forgotten there make up the rate |
| ReadTimer.ThrottledSilenceExtends | src/io.rs:283-294 | a concrete run from the start: write back-pressure right after an extension keeps the loop from decoding, and a silent peer is granted another extension |
| ReadTimer.DecodedDecides | src/io.rs:512-544 | a complete frame stops both timers; an incomplete one starts the read timer with the whole budget or only renews the count; with nothing buffered the keep-alive timer runs |
| ReadTimer.ExpiryDecides | src/io.rs:546-581 | the exact condition of each verdict of an expiry |
| ReadTimer.FrameStopsTimers | src/io.rs:514-516 | in every run, after a complete frame the next expiry is harmless |
| ReadTimer.PauseStopsTimers | src/io.rs:461-467 | in every run, so is the one after a pause of the service |
| ReadTimer.FrameTimer.Update | src/io.rs:512-544 | `update_timer` refines the decode step; the io timer is started exactly when reading or idling begins |
| ReadTimer.FrameTimer.Timeout | src/io.rs:546-581 | `handle_timeout` refines the expiry step; the io timer is restarted exactly once per extension |
| ReadTimer.FrameTimer.React | src/io.rs:260-294 | one event, with the decode round, the throttling or the pause that follows an expiry, refines the specification |
| ReadTimer.RunEvents | src/io.rs:512-581 | the timer code reaches the verdict and the cells of the specification for every sequence of events |
| WindowCredit.WakeFacts | src/v5/shared.rs:137-150 | the wake loop signals `min(n, living)` living waiters, each once, and none of them stays queued |
| WindowCredit.WakesOldestFirst | src/v5/shared.rs:137-150 | the signalled waiters are the oldest living ones, in queue order; what stays queued is a suffix of the queue, and only dead waiters are lost |
| WindowCredit.WakeUpCount | src/v5/shared.rs:190-209 | waking turns `min(n, living)` queued waiters into signalled ones, each counted once |
| WindowCredit.QueuesStep | src/v5/shared.rs:333-345 | every step keeps the queued waiters distinct, and no waiter is both queued and signalled |
| WindowCredit.CreditStep | src/v5/sink.rs:234-256 | one step keeps in-flight packets plus signalled waiters within the receive maximum if and only if it does not hand out a slot already promised |
| WindowCredit.PromisedCredit | src/v5/shared.rs:137-270 | in-flight packets plus signalled waiters stay within the capacity in every state of a run if and only if every step of the run is safe |
| WindowCredit.CapStep | src/v5/sink.rs:234-311 | one step keeps the packets in flight within the capacity if and only if it is neither a signalled sender resuming into a full window nor a `set_cap` below the packets in flight |
| WindowCredit.ReceiveMaximum | src/v5/sink.rs:234-311 | the peer's receive maximum is respected in every state of a run if and only if no step of it overfills the window |
| WindowCredit.PatientRunsRespectReceiveMaximum | src/v5/shared.rs:137-150 | with one `set_cap`, whatever happened before it, if fresh sends and the end of back-pressure after it wait for signalled waiters, in-flight packets, also together with signalled waiters, stay within the receive maximum in every state of the run (section 4.9 of MQTT 5.0) |
| WindowCredit.OvertakingExceedsReceiveMaximum | src/v5/sink.rs:234-256 | a concrete run in which a fresh sender overtakes a signalled waiter and two packets are in flight where the peer allows one |
| WindowCredit.IdleStep | src/v5/shared.rs:221-270 | one step keeps credit from idling if and only if it does not give up the signal another living waiter needs |
| WindowCredit.NoLostCredit | src/v5/shared.rs:137-209 | over a whole run, a living waiter is queued only while credit is used up or writing is throttled, if and only if no step wastes a signal |
| WindowCredit.AckSignalsOldest | src/v5/shared.rs:249-254 | the acknowledgement of the oldest packet signals the oldest living waiter, unless it panics |
| WindowCredit.NoDeadlock | src/v5/shared.rs:249-254 | a living waiter on an unthrottled connection is not forgotten: a signal is on its way, or a packet is in flight whose acknowledgement signals the oldest waiter |
| WindowCredit.DroppedSignalStrandsSender | src/v5/sink.rs:243-251 | a concrete run in which dropping a signalled sender leaves another one waiting for ever on an idle connection |
| WindowLaws.BackpressureHoldsSenders | src/v5/shared.rs:333-345 | under write back-pressure a send or `ready` adds exactly one waiter at the end of the queue, a non-blocking send changes nothing, and nothing is registered or written |
| WindowLaws.FullWindowHoldsSenders | src/v5/shared.rs:333-345 | the same while as many packets are in flight as the peer allows |
| WindowLaws.ClosedSinkRefuses | src/v5/sink.rs:234-290 | on a closed connection sends and `ready` change nothing |
| WindowLaws.CreditLetsThrough | src/v5/sink.rs:234-311 | otherwise a send goes through at once: its own id or the next of the counter, refused if that id is in use or a publish does not encode, else the newest in flight and, if it encoded, on the wire; nothing else changes |
| WindowLaws.SignalledGoesThrough | src/v5/sink.rs:243-251 | a signalled sender does the same whatever the credit is by then, and its signal is used up |
| WindowLaws.BackpressureIsLast | src/v5/shared.rs:184-209 | over every run back-pressure is on exactly when the last event that changes it turned it on |
| WindowLaws.CapacityIsLast | src/v5/shared.rs:137-150 | over every run the capacity is the last one set |
| WindowLaws.DeadAreDropped | src/v5/shared.rs:142-146 | over every run a waiter counts as dead exactly when its future was dropped |
| WindowLaws.ClosedIsCaused | src/v5/shared.rs:99-114 | over every run the connection is closed exactly when an event closed it: a close, the peer leaving, or an acknowledgement that did not fit |
| WindowOrder.OrderedStep | src/v5/shared.rs:211-331 | every step keeps: registrations numbered in order, resolutions numbered in order, and the FIFO is exactly the unresolved tail |
| WindowOrder.AcksInSendOrder | src/v5/shared.rs:221-270 | in every run the k-th resolution goes to the k-th registered send with its own id and kind, or as disconnected after the queues were cleared; the rest is in flight |
| WindowOrder.CloseResolvesEverything | src/v5/shared.rs:99-182 | in a run that has not panicked, closing, or an acknowledgement that does not fit, resolves every send registered so far, exactly once |
| WindowOrder.StepRegisters | src/v5/shared.rs:273-331 | the registrations and the packets written grow only by what the step dispatches; a publish that does not encode adds to neither, a subscription to the first only |
| WindowTeardown.ClosingTearsDown | src/v5/shared.rs:99-110 | after a close or a misfitting acknowledgement the connection is closed, nothing is in flight, nobody waits and the callback is gone |
| WindowTeardown.TeardownExact | src/v5/sink.rs:243-251 | from then on every registered send is resolved in every later state if and only if no sender signalled before resumes and is admitted |
| WindowTeardown.ResolvedAtTheEnd | src/v5/sink.rs:366-378 | after the last close, when nobody acknowledges, all registered sends are resolved at the end of the run if and only if nobody resumed late |
| WindowTeardown.LateResumeStrandsSender | src/v5/sink.rs:243-251 | a concrete run: a sender signalled just before the close is registered after it and waits for ever |
| WindowOrder.AckConversionsSafe | src/v5/shared.rs:398-429 | in every run a fitting acknowledgement of a callback send is a PUBACK, and every acknowledged send is answered with the kind it was registered with, which its sender converts to: the panicking conversions are unreachable |
| WindowCallback.PanicsExactly | src/v5/shared.rs:240-247 | a run panics at the missing callback if and only if it acknowledges a non-blocking send before any callback was installed |
| WindowCallback.ExposedStep | src/v5/sink.rs:261-290 | one step leaves a packet in flight that nobody can be told about if and only if it is a non-blocking send that goes through without a callback |
| WindowCallback.GuardedRunsAreSafe | src/v5/sink.rs:261-290 | no state of a run is exposed to the panic if and only if a callback is installed at every non-blocking send that goes through |
| WindowCallback.AckNeverPanics | src/v5/shared.rs:240-247 | a run with a callback installed at every such send never panics |
| WindowCallback.PeerCanPanic | src/v5/shared.rs:221-255 | the peer can make the connection panic by acknowledgements alone if and only if a callback send is in flight and no callback is installed |
| WindowCallback.MissingCallbackPanics | src/v5/shared.rs:312-331 | a concrete run: capacity one, a non-blocking send, its PUBACK |
| WindowReports.CallbackReportsInSendOrder | src/v5/shared.rs:169-182 | in every run the callback is called in send order, at most once per send, with its own id, and exactly for the acknowledged callback sends (as delivered) and those lost while it was installed (as disconnected) |
| WindowReports.ToldStep | src/v5/shared.rs:240-247 | every step keeps the calls of the callback equal to what the fates of the callback sends deserve, in order |
| WindowReports.MisfitFates | src/v5/shared.rs:225-232 | an acknowledgement that does not fit drops the oldest send without telling the callback, and loses all others to the clearing |
| WindowReports.CloseFates | src/v5/shared.rs:169-182 | closing loses every send in flight, in order, with the callback that was installed then |
| WindowWire.WireInRegistrationOrder | src/v5/shared.rs:273-331 | in every run, whatever the codec refuses, the packets on the wire are exactly the written registrations, in registration order |
| WindowWire.WireOrderedExactly | src/v5/sink.rs:378-387 | a run writes everything it registers, in order, if and only if no subscribe or unsubscribe is registered in it that the codec refuses |
| WindowWire.PhantomIsSubscription | src/v5/shared.rs:290-310 | a publish is never registered without being written |
| WindowWire.PhantomMakesAckClose | src/v5/shared.rs:225-232 | in every run, on an open connection, the acknowledgement of the oldest packet the peer was sent closes the connection if and only if an unwritten packet is ahead of it |
| WindowWire.RefusedSubscribeClosesConnection | src/v5/sink.rs:378-387 | a concrete run: a SUBSCRIBE that does not encode has the correct PUBACK of the publish behind it close the connection |
| WindowIds.InFlightIdsDistinct | src/v5/shared.rs:273-331 | in every run, also after the queues were cleared, no packet id is in flight twice and `inflight_ids` holds every id in flight; before, it holds nothing else |
| WindowIds.StaleStep | src/v5/shared.rs:169-182 | a step adds to the ids reserved for nothing exactly those it leaves behind when it clears the queues; none is ever released |
| WindowIds.IdSetExact | src/v5/shared.rs:169-182 | `inflight_ids` is the set of ids in flight at the end of a run if and only if no clearing step of it left an id behind |
| WindowIds.CloseLeavesIdBehind | src/v5/shared.rs:169-182 | a concrete run: closing with a packet in flight leaves its id reserved |
| WindowIds.GeneratedIdRefusedOnlyWhenFull | src/v5/shared.rs:124-135 | while the ids follow the cycle, a generated id is refused if and only if all 65,535 ids are in flight |
| WindowIds.CyclicExactly | src/v5/shared.rs:124-135 | the ids of a run follow the cycle throughout if and only if every attempt to send uses and registers a generated id, or is refused under an id of its own |
| WindowIds.GeneratedIdsFormInterval | src/v5/shared.rs:124-135 | in such runs the ids in flight are a contiguous cyclic interval ending at the last id handed out, and the next id is the one after it, refused if and only if all 65,535 are in flight |
| WindowIds.FailedEncodesExhaustIds | src/v5/sink.rs:297-309 | a concrete run: publishes that do not encode use up ids, and a send is refused for its id with one packet in flight |
| SharedState.RunEvents | src/v5/shared.rs:99-345 | the in-place queues end up where the specification of the window says, for every sequence of events |
| SharedState.ReportLost | src/v5/shared.rs:169-182 | draining the FIFO reports exactly the entries without a sender, in order, as disconnected |
| SharedState.MqttShared.WakeNext | src/v5/shared.rs:249-254 | pops waiters until one living waiter is signalled or none is left |
| SharedState.MqttShared.WakeMany | src/v5/shared.rs:137-150 | the counting wake loop equals waking `n` living waiters in queue order |
| SharedState.MqttShared.SetCapacity | src/v5/shared.rs:137-150 | new capacity, with as many living waiters signalled as it has slots |
| SharedState.MqttShared.DisableWrBackpressure | src/v5/shared.rs:190-209 | ends back-pressure and signals one living waiter per free slot |
| SharedState.MqttShared.GenerateId | src/v5/shared.rs:124-135 | the next id of the cycle 1..65535, stored so that the last one wraps to 0 |
| SharedState.MqttShared.WaitAck | src/v5/shared.rs:273-331 | registers under a free id; a publish that does not encode leaves no trace, a subscription is registered before it is encoded |
| SharedState.MqttShared.WaitReadiness | src/v5/shared.rs:333-345 | queues a new waiter exactly when there is no credit or writing is throttled |
| SharedState.MqttShared.ClearQueues | src/v5/shared.rs:169-182 | drops waiters and the FIFO, resolves and reports what was in flight, and leaves `inflight_ids` alone |
| SharedState.MqttShared.Answer | src/v5/shared.rs:234-255 | a fitting acknowledgement resolves the oldest packet and wakes one waiter, or panics when there is neither a sender nor a callback |
| SharedState.MqttShared.PktAck | src/v5/shared.rs:211-270 | answers the oldest packet when the acknowledgement fits, otherwise pops it and closes |
| SharedState.MqttShared.RunSender | src/v5/sink.rs:234-311 | a piece of sender code between two suspension points does what the window specification says; only a closed or unready sink stops a non-blocking send |
| SharedState.MqttShared.React | src/v5/shared.rs:99-345 | every event changes the shared state as the window specification says; a panic ends the run |
| InFlight.ExactStep | src/inflight.rs:94-111 | the two cells always equal the number (modulo 2^16) and the total size of the live guards |
| InFlight.CallCounts | src/inflight.rs:40-43 | a call takes one slot and its own size, which counts only under a size limit |
| InFlight.AvailableExactly | src/inflight.rs:113-117 | there is room exactly while the live guards are below each limit that is set |
| InFlight.PollRegisters | src/inflight.rs:113-122 | a poll registers the task exactly when there is no room |
| InFlight.FinishGivesBack | src/inflight.rs:100-111 | the end of a request gives back its slot and size and wakes the task exactly when the count was at its maximum or the size falls back to its limit |
| InFlight.WakeupStep | src/inflight.rs:94-123 | one step keeps every registered task needed if and only if it is not a call that wraps the 16-bit count under a waiting task |
| InFlight.WaitersAreWoken | src/inflight.rs:94-123 | in every state of a run a task registered since the last wake-up finds the counter unavailable, if and only if no call of the run wraps the count under it |
| InFlight.OverflowLosesWakeup | src/inflight.rs:95-98 | a concrete run: 65,536 guards look like none, and a task keeps waiting although the counter is available |
| InFlight.PoliteCallersAreWoken | src/inflight.rs:33-45 | for callers that wait for `ready` no wake-up is ever lost, without any bound on their number |
| InFlight.PoliteRunsAreBounded | src/inflight.rs:40-123 | with such callers the live guards stay within `max_cap` and their size exceeds `max_size` by at most one request |
| InFlight.CounterInner.Acquire | src/inflight.rs:95-98 | a guard adds itself to both cells |
| InFlight.CounterInner.Release | src/inflight.rs:100-111 | a dropped guard leaves both cells and wakes the task exactly when the count was at its cap or the size falls back to its limit |
| InFlight.CounterInner.PollAvailable | src/inflight.rs:113-122 | reports availability and registers the task exactly when there is none |
| InFlight.RunEvents | src/inflight.rs:40-123 | the cells and wake-ups of the code are those of the specification for every sequence of events |
| Inbound.OneOperationPerPacketId | src/v5/dispatcher.rs:165-326 | in every run each packet id has at most one operation in progress, whatever finishes or fails |
| Inbound.OwnedStep | src/v5/dispatcher.rs:499-529 | every step keeps the id set equal to the ids of operations in progress and of abandoned ones, disjointly |
| Inbound.InFlightCount | src/v5/dispatcher.rs:187-207 | the number compared with the receive maximum counts publishes, subscriptions in progress and abandoned ids |
| Inbound.ReceiveMaximumRespected | src/v5/dispatcher.rs:165-326 | in every run the QoS 1 and 2 publishes in service never exceed a receive maximum |
| Inbound.AccusedExactlyWhen | src/v5/dispatcher.rs:187-207 | the peer is accused of exceeding the maximum if and only if publishes, subscriptions and abandoned ids together reach it |
| Inbound.SubscriptionGetsPublishAccused | src/v5/dispatcher.rs:187-207 | a concrete run: with a maximum of one, a SUBSCRIBE in progress has the first QoS 1 publish accused |
| Inbound.FailedPublishGetsNextAccused | src/v5/dispatcher.rs:486-498 | a concrete run: a publish whose service failed has the next one accused although nothing is in progress |
| Inbound.RunAliases | src/v5/dispatcher.rs:256-306 | in every run alias keys are within the maximum and hold the topic recorded last, never empty or with a wildcard |
| Inbound.AliasDelivery | src/v5/dispatcher.rs:256-326 | every delivered alias publish carries the topic most recently recorded for its alias in the run, not empty and without wildcards; an unbound alias without a topic is refused (section 3.3.2.3.4 of MQTT 5.0) |
| InboundLaws.PublishAnswered | src/v5/dispatcher.rs:165-326 | every verdict on a publish, exactly when it is given, on the packet, the settings, the operations in progress and the bindings recorded so far |
| InboundLaws.RunsAnswer | src/v5/dispatcher.rs:165-326 | so it is in every state of every run |
| InboundLaws.PlainDelivery | src/v5/dispatcher.rs:256-326 | a publish without an alias is delivered under its own topic |
| InboundLaws.PublishChanges | src/v5/dispatcher.rs:243-326 | a delivered publish starts one operation, one given up after its id was taken loses the id, a recorded alias is the only binding added, and nothing else changes |
| InboundLaws.SubscriptionAnswered | src/v5/dispatcher.rs:347-434 | every verdict on a subscribe or unsubscribe, exactly when it is given, and what it changes |
| InboundLaws.FinishFrees | src/v5/dispatcher.rs:499-529 | the end of an operation frees its id exactly when the service did not fail |
| InboundLaws.LastBindingIs | src/v5/dispatcher.rs:277-306 | the topic bound to an alias is the one recorded after which no other was recorded for it |
| InboundLaws.ClosedByDisconnect | src/v5/dispatcher.rs:308-315 | the connection counts as closed exactly from a disconnect on |
| Inbound.Dispatcher.CallPublish | src/v5/dispatcher.rs:165-326 | the checks in the code's order, ownership of the id and the alias table agree with the admission step |
| Inbound.Dispatcher.CallSubscription | src/v5/dispatcher.rs:347-434 | a subscribe or unsubscribe takes its id, or is refused, as the admission step says |
| Inbound.Dispatcher.Finish | src/v5/dispatcher.rs:499-529 | the end of an operation releases its id, an error keeps it |
| Inbound.RunEvents | src/v5/dispatcher.rs:165-434 | the id set, alias table and calls of the code are those of the specification for every sequence of events |
| TopicFilter.ScanMeansParse | src/topic.rs:5-31 | the one-pass automaton accepts a string if and only if the split-based parser does, for every string |
| TopicFilter.PrintParsed | src/topic.rs:242-269 | printing a parsed filter gives back the original string |
| TopicFilter.ParsePrinted | src/topic.rs:195-240 | every filter the parser can produce is the parse of its own text, so strings and parsed filters correspond |
| TopicFilter.JoinSplit | src/topic.rs:195-232 | splitting at `/` loses nothing: joining the levels gives the string back |
| TopicFilter.SplitJoin | src/topic.rs:255-269 | joining levels without `/` and splitting again gives the levels back |
| TopicFilter.IsValidTopic | src/topic.rs:5-31 | the byte loop decides the automaton |
| TopicFilter.PrintFilter | src/topic.rs:255-269 | the printing loop writes the levels joined by `/` |
| TopicMatch.MatchesTopic | src/topic.rs:59-85 | the iterator loop computes the topic matcher |
| TopicMatch.MatchesFilter | src/topic.rs:59-85 | the same loop over filter levels computes the inclusion matcher |
| TopicMatch.MatchTopicMeansCovers | src/topic.rs:113-116 | the matcher decides section 4.7 of MQTT 5.0, stated index by index, for every parsed filter and every topic |
| TopicMatch.MatchFilterIs | src/topic.rs:164-180 | the inclusion matcher is index-wise inclusion with `#` reaching its parent level |
| TopicMatch.MatchesFilterReflexive | src/topic.rs:109-111 | every valid filter includes itself |
| TopicMatch.MatchesFilterTransitive | src/topic.rs:109-111 | inclusion is transitive on valid filters of any lengths |
| TopicMatch.IncludesIsSound | src/topic.rs:164-193 | an included filter's topics are the including filter's, except where a wildcard faces a `$` level |
| TopicMatch.IncludesIsComplete | src/topic.rs:164-180 | if all topics of one filter belong to another, the code sees the inclusion, except for `+/#` over `#` |
| TopicMatch.MatchesFilterExactly | CHANGES.md:249-250 | the documented intent, with its exact reach: superset of topics if and only if the code says so and no wildcard faces a `$` level, or the filters are `+/#` and `#` |
| TopicMatch.HashClaimsSystemTopics | src/topic.rs:164-193 | a concrete pair: `#` is said to include `$SYS` but does not match it |
| TopicText.FilterGrammar | src/topic.rs:195-232 | a string is a filter exactly when it is not empty, `#` occurs only alone in its last level and `+` only alone in a level |
| TopicText.MatchesAsText | src/topic.rs:59-85 | whether a filter matches a topic, read off the two strings level by level: `+` any one level, a final `#` the parent and everything below, neither for a first level that starts with `$` |
| Wire.DecodeVarInt | src/utils.rs:139-153 | the shift loop reads the variable byte integer, with its two error cases |
| Wire.VarIntRoundTrip | src/utils.rs:272-295 | writing takes `var_int_len` bytes and reading them returns the value whatever follows (section 1.5.5 of MQTT 5.0) |
| Wire.VarIntPanics | src/utils.rs:272-295 | the writer panics exactly above 268,435,455 |
| Wire.VarIntLenIsGroups | src/v5/codec/encode.rs:213-229 | the length is the number of groups of seven bits |
| Wire.Table32 | src/v5/codec/encode.rs:232-239 | the 32-bit table lookup by leading zeros gives that number for every `u32` |
| Wire.Table64 | src/v5/codec/encode.rs:213-229 | the 64-bit table gives it for every `usize` |
| Wire.FromSizeInverts | src/v5/codec/encode.rs:242-246 | `var_int_len_from_size` inverts `len + var_int_len(len)` for every length, also where the prefix crosses a width |
| Wire.U16RoundTrip | src/utils.rs:80-85 | a 16-bit integer is read back, whatever follows |
| Wire.U32RoundTrip | src/utils.rs:87-93 | a 32-bit integer is read back, whatever follows |
| Wire.BytesRoundTrip | src/utils.rs:108-114 | a byte block takes its computed size and is read back |
| Wire.StringRoundTrip | src/utils.rs:116-120 | likewise for UTF-8 strings |
| Wire.NamesRoundTrip | src/v3/codec/decode.rs:157-164 | a list of topic names takes its computed size and is read back |
| Utf8.Utf8Exactly | src/utils.rs:116-120 | bytes are accepted as a string exactly when they encode some sequence of Unicode scalar values (RFC 3629) |
| Layout.U16Layout | src/utils.rs:191-199 | two bytes, most significant first |
| Layout.U32Layout | src/utils.rs:210-218 | four bytes, most significant first |
| Layout.StrLayout | src/utils.rs:229-248 | a two byte length and the bytes; longer ones are refused with nothing written |
| Layout.VarLayout | src/utils.rs:272-295 | groups of seven bits, least significant first, with a continuation bit; more than four groups panic |
| Layout.GetStringIs | src/utils.rs:116-120 | a string is read exactly from its length and bytes |
| Layout.GetU32Is | src/utils.rs:87-93 | a 32-bit integer is read exactly from its four bytes |
| Layout.GetVarIntIs | src/utils.rs:139-153 | what the reader of a variable byte integer accepts, byte by byte, and its two refusals |
| Layout.RefusedValues | src/utils.rs:71-106 | zero ids and intervals, flags other than 0 and 1, and missing bytes are refused |
| Layout.NotUtf8 | src/utils.rs:116-120 | other bytes are refused as strings |
| Layout.TakeIs | src/utils.rs:122-127 | a property block is what its length says, or refused |
| Types.PublishByteBits | src/v3/codec/encode.rs:88-93 | the first byte of a PUBLISH lies in its range and yields `dup`, QoS and `retain` again |
| Frame.CallMore | src/v5/codec/codec.rs:112-169 | one decoder call with more bytes behind it: same packet or error, and waiting loses nothing |
| Frame.DrainMore | src/v5/codec/codec.rs:112-169 | draining in two portions is draining once |
| Frame.ChunkingIrrelevant | src/v3/codec/codec.rs:49-96 | for arbitrary bytes and any cut into chunks: the same packets, the same first error, the same leftover |
| Frame.DrainCons | src/v3/codec/codec.rs:49-96 | a packet that decodes in front of any rest is drained first |
| Frame.Decoder.Decode | src/v3/codec/codec.rs:49-96 | the two-state loop over `state` computes one decoder call |
| Frame.DrainBuffer | src/v3/codec/codec.rs:49-96 | calling until `None` or an error yields the drained packets |
| Frame.Receive | src/v5/codec/codec.rs:112-169 | a connection fed chunk by chunk yields what one decoder fed with all bytes yields |
| FrameLayout.HeaderThenBody | src/v3/codec/codec.rs:49-96 | one call on any complete header and any bytes: size check, waiting for the body, then decoding exactly the body |
| FrameLayout.BodyWaits | src/v3/codec/codec.rs:83-93 | with its header read, a frame waits for its last byte and then decodes exactly its body |
| FrameLayout.HeaderIncomplete | src/v3/codec/codec.rs:52-85 | without a complete length nothing is consumed, and a fifth length byte is an error |
| V3Codec.DecodeFilters | src/v3/codec/decode.rs:131-142 | the loop over topic filters reads them all or reports the first error |
| V3Codec.DecodeNames | src/v3/codec/decode.rs:157-164 | the loop over names reads them all or reports the first error |
| V3RoundTrip.ConnectRoundTrip | src/v3/codec/encode.rs:169-223 | a CONNECT takes its computed size and decodes to itself, except an empty client id without clean session, which the decoder refuses |
| V3RoundTrip.NamelessConnectRefused | src/v3/codec/decode.rs:49-98 | a concrete CONNECT that encodes and is refused with an invalid client id |
| V3RoundTrip.PublishRoundTrip | src/v3/codec/decode.rs:112-129 | a PUBLISH takes its computed size and decodes to itself |
| V3RoundTrip.BodyRoundTrip | src/v3/codec/encode.rs:69-167 | every packet body takes exactly `get_encoded_size` bytes and decodes to the packet, with that one exception |
| V3RoundTrip.FrameHonest | src/v3/codec/codec.rs:102-112 | a frame announces exactly the bytes that follow if and only if the content is below 2^32 bytes |
| V3RoundTrip.OversizedFrame | src/v3/codec/codec.rs:108-110 | a concrete publish of 2^32 payload bytes whose frame announces two |
| V3RoundTrip.PacketRoundTrip | src/v3/codec/codec.rs:49-112 | an encoded packet in front of any bytes is decoded with its size and leaves the rest, or is refused for the inbound limit or that CONNECT |
| V3RoundTrip.EncodeSucceedsExactly | src/v3/codec/codec.rs:102-112 | `encode` succeeds if and only if the length is representable, every string is shorter than 65,536 bytes, and a packet id is present exactly for QoS 1 and 2 |
| V3RoundTrip.StreamDrains | src/v3/codec/codec.rs:49-112 | any list of encoded packets drains to those packets with their sizes and an empty buffer |
| V3RoundTrip.StreamRoundTrip | src/v3/codec/codec.rs:49-112 | the same for every way of cutting the stream into chunks |
| V3Layout.EncodeLayout | src/v3/codec/encode.rs:69-223 | a successful encode of any packet, byte for byte: first byte, length, and every field of the body (sections 2.2 and 3 of MQTT 3.1.1) |
| V3Accepts.DecodesExactly | src/v3/codec/decode.rs:12-164 | the decoder yields a packet if and only if the first byte and the body read as that packet, for all bytes |
| V5Props.FittingIsLongest | src/v5/codec/encode.rs:125-133 | the loop keeps the longest prefix of user properties that fits |
| V5Props.CutKeepsLongestPrefix | src/v5/codec/encode.rs:120-143 | what is kept is the one thing described by: longest fitting prefix of user properties, and the reason string only if all of them were kept and it fits |
| V5Props.EncodedSizeOptProps | src/v5/codec/encode.rs:120-143 | the loop returns the size of what is kept |
| V5Props.EncodeOptProps | src/v5/codec/encode.rs:145-171 | the loop writes property by property, stopping at the first error or the first that does not fit |
| V5Props.SizeDeterminesCut | src/v5/codec/encode.rs:145-171 | from the size of the kept diagnostics alone the encoder writes exactly those |
| V5Props.DecodeDiag | src/v5/codec/packet/mod.rs:223-239 | the property loop of the acknowledgements |
| V5Props.DiagRoundTrip | src/v5/codec/packet/mod.rs:223-239 | written diagnostics take their size and are read back in order |
| V5Props.AckPropsWritten | src/v5/codec/packet/mod.rs:189-220 | told only the total size, the encoder recovers the length and writes exactly the kept diagnostics |
| V5Props.TakeRoundTrip | src/utils.rs:122-127 | a length-prefixed block is split off exactly, whatever follows |
| V5Props.AckPropsRoundTrip | src/v5/codec/packet/mod.rs:189-239 | written acknowledgement properties take the computed size and decode to what was kept |
| V5Codec.DecodeDisconnectProps | src/v5/codec/packet/disconnect.rs:76-84 | the property loop of a DISCONNECT |
| V5Codec.DecodeSubscribeProps | src/v5/codec/packet/subscribe.rs:111-139 | the property loop of a SUBSCRIBE |
| V5Codec.DecodeFilters | src/v5/codec/packet/subscribe.rs:111-139 | the loop over topic filters with their options |
| V5Codec.DecodePublishProps | src/v5/codec/packet/publish.rs:76-115 | the property loop of a PUBLISH |
| V5RoundTrip.AckRoundTrip | src/v5/codec/packet/pubacks.rs:55-153 | PUBACK, PUBREC, PUBREL and PUBCOMP take the computed size and decode to themselves with the diagnostics cut |
| V5RoundTrip.StatusAckRoundTrip | src/v5/codec/packet/subscribe.rs:254-325 | SUBACK and UNSUBACK likewise |
| V5RoundTrip.DisconnectWritten | src/v5/codec/packet/disconnect.rs:131-145 | told only the total size, the DISCONNECT encoder writes its fixed properties and exactly the kept diagnostics |
| V5RoundTrip.DisconnectRoundTrip | src/v5/codec/packet/disconnect.rs:65-146 | DISCONNECT takes the computed size and decodes to itself with the diagnostics cut |
| V5RoundTrip.OptionsRoundTrip | src/v5/codec/packet/subscribe.rs:224-252 | the options byte yields QoS, no-local, retain-as-published and retain handling again |
| V5RoundTrip.SubscribeRoundTrip | src/v5/codec/packet/subscribe.rs:111-222 | SUBSCRIBE takes the computed size and decodes to itself |
| V5RoundTrip.UnsubscribeRoundTrip | src/v5/codec/packet/subscribe.rs:153-301 | UNSUBSCRIBE takes the computed size and decodes to itself |
| V5Publish.BlockRoundTrip | src/v5/codec/packet/publish.rs:143-174 | the eight kinds of publish properties take the computed length and parse to the same properties |
| V5Publish.PublishRoundTrip | src/v5/codec/packet/publish.rs:51-141 | PUBLISH, whose property length is recovered from the total size, takes that size and decodes to itself |
| V5Stream.BodyRoundTrip | src/v5/codec/encode.rs:15-118 | for every packet and limit, the body takes exactly `encoded_size(limit)` bytes and decodes to the packet as trimmed |
| V5Stream.SizeExact | src/v5/codec/codec.rs:210-218 | a successful encode writes exactly one byte, the length and the computed size |
| V5Stream.MaximumPacketSize | src/v5/codec/codec.rs:73-79 | with a maximum `m` a successful encode stays within `m` bytes if and only if `m` exceeds five or the content leaves room for the header (section 3.1.2.11.4 of MQTT 5.0) |
| V5Stream.TinyMaximumExceeded | src/v5/codec/codec.rs:73-79 | a concrete packet: six bytes are written for a peer that accepts four |
| V5Stream.LimitedRoundTrip | src/v5/codec/codec.rs:112-219 | an encoded packet in front of any bytes is decoded to what was meant to be sent, with its size, and leaves the rest |
| V5Stream.StreamDrains | src/v5/codec/codec.rs:112-169 | any list of encoded packets drains to those packets as trimmed, with their sizes |
| V5Stream.StreamRoundTrip | src/v5/codec/codec.rs:112-219 | the same for every way of cutting the stream into chunks |
| V5Limit.Codec.SetMaxOutboundSize | src/v5/codec/codec.rs:73-79 | five bytes are set aside, unless the maximum is not above five |
| V5Limit.Codec.EncodeTo | src/v5/codec/codec.rs:176-219 | appends to the buffer what decodes to the packet the peer should get, in the exact size; a refused size appends nothing |
| V5Limit.EncodeSucceedsExactly | src/v5/codec/codec.rs:176-219 | `encode` succeeds if and only if the size is allowed and representable and every field that is still sent can be written |
| V5Limit.SentDiagnostics | src/v5/codec/codec.rs:176-219 | what is sent, field by field: without problem information the acknowledgements carry no diagnostics and SUBSCRIBE and UNSUBSCRIBE no user properties; otherwise diagnostics are the longest prefix of user properties, and then the reason string, that fits the limit less the bytes set aside; nothing else changes |
| V5Limit.PeerReceives | src/v5/codec/codec.rs:112-219 | the peer's decoder yields exactly such a packet from the encoded one in front of any bytes, and leaves the rest |
| V5Layout.EncodeLayout5 | src/v5/codec/encode.rs:36-118 | a successful encode of any packet, byte for byte: first byte, length, property identifiers and values, and every other field of the packet that is sent (sections 2 and 3 of MQTT 5.0) |
| V5Layout.FirstByteDecides | src/v5/codec/decode.rs:8-29 | which packet each first byte yields, and that all others are refused |
| V5Layout.ReasonCodes | src/v5/codec/packet/pubacks.rs:5-53 | the reason codes each packet may carry, by value |
| V5Layout.PropertiesRefused | src/utils.rs:63-69 | a property given twice, or unknown in its packet, is refused |
| V5Layout.ShortForms | src/v5/codec/packet/pubacks.rs:55-105 | the forms without reason code or without properties mean success and no diagnostics |
| V5Layout.TrailingRefused | src/v5/codec/packet/pubacks.rs:55-105 | bytes after the properties of an acknowledgement are refused |
| V5Layout.DisconnectTrailingRefused | src/v5/codec/packet/disconnect.rs:65-101 | so they are after those of a disconnect |
| V5Limit.KeptIsCut | src/v5/codec/packet/pubacks.rs:118-153 | for a packet within its limit the wrapping subtractions have no visible effect |
| V5Limit.DiagnosticsRefused | src/v5/codec/packet/pubacks.rs:118-126 | a packet fits its limit if and only if it fits without its diagnostics, except a publish acknowledgement under a limit below seven, which must have no diagnostics, or a first one larger than the limit plus 2^32 - 11 |
| V5Limit.ReasonStringRefused | src/v5/codec/packet/pubacks.rs:118-126 | a concrete acknowledgement refused for its reason string although it fits without |

## Left out

- MQTT 5 CONNECT, CONNACK and AUTH packets: large records that repeat the same size and round-trip lemmas; the modelled `decode_packet` answers them with an unsupported packet type, and the flag that CONNECT sets is a parameter (`noProblemInfo`).
- src/v3/shared.rs, src/v3/sink.rs, src/v3/dispatcher.rs and both client dispatchers: near copies of the MQTT 5 logic modelled here.
- TLS, websockets, connectors, servers, handshakes, builders, sessions, default services and error types: plumbing without a hard property.
- Routers: the pattern matching is in a library that is not part of this model.
- ntex-io, ntex-service and ntex-util internals: io, timers, channels and wakers appear as events, logs and an alive or dead flag per receiver; `LocalWaker` is one registered flag.
- Poll loop of src/io.rs: the Backpressure arm, memory pressure and which of several errors is finally reported; the model has calls, completions, the error check, Stop and the drain.
- Packets and service errors of the reorder buffer are opaque names, and a deque of 2^64 slots is the limit for calls.
- Callback re-entrancy: callbacks of the sink are assumed not to call back into it.
- `send_at_least_once_no_block` on a sink that is not ready panics before it changes anything; the run model leaves the state unchanged there.
- After the panic at a missing callback the run ends: what other tasks could still do with the shared state while the dispatcher unwinds is not modelled.
- ntex-io decides whether an expiry, write back-pressure or a decode round is reported first; the timer model allows every order, and its finding depends on back-pressure being reported right after an expiry. A read buffer holds fewer than 2^32 bytes.
- The three wake loops of src/v5/shared.rs share one method, `WakeMany`, and the three registering functions one, `WaitAck`.
- Buffers: encoders are functions giving the bytes appended and how the write ended, also when it stops half way; decoders return the bytes left. Aliasing and reserved capacity of `BytesMut` are not modelled. Loops are methods where they make decisions; encoder loops that only append are recursive functions.
- Malformed MQTT 5 input: which bytes the decoder accepts is stated for first bytes, short forms, property identifiers, repetitions and trailing bytes, not as one if-and-only-if as for MQTT 3.1.1, because properties may come in any order.
- Debug builds: overflowing subtractions wrap as in an optimised build; the packet-size counters of the in-flight limiter do not overflow `usize`.
- Wire.FromSizeInverts: stated up to 268,435,455, the largest length that can be written.
- `write_topic` and `write_level` of src/topic.rs: the same text as `Display`, through an io writer.
- Strings of topic filters are sequences of characters; the one-pass validator works on bytes, and all characters it looks at are one byte in UTF-8.
