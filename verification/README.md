# A verified model of the UniMRCP core

This project models the parts of UniMRCP whose correctness depends on order,
counting and buffering, and proves what they promise about all inputs and all
runs: the client session protocol, the media engine's request path, the jitter
buffer, the incremental message parser, multipart content, the task start-up
wave, the timer queue, the media context and its topology, RTP reception
statistics, DTMF generation and detection, the audio buffer, RTP ports and the
recorder state machine.

Each component has the same three layers.

- A value model: datatypes for the state and pure functions for the steps, with
  the branches, constants and error returns of the C code.
- Lemmas about every run of those steps, stated against something independent
  of them: a list of accepted packets, a reader that takes one character at a
  time, the log of what the application saw, a matrix of associations, true
  sequence numbers.
- Classes and methods in the form of the code, with fields updated in place,
  arrays and loops, each proved to take exactly the step of the value model. The
  table below lists those whose loop or array needs a proof of its own.

| component | files |
|---|---|
| client session | `SessionModel`, `SessionProofs`, `SessionRuns`, `SessionResets`, `SessionCounter`, `SessionFailures`, `SessionOutcomes`, `SessionOrder`, `SessionLiveness`, `SessionRequests`, `ClientSession` |
| media engine requests | `CyclicQueue`, `MediaEngine` |
| jitter buffer | `JitterBuffer`, `JitterTiming`, `JitterEvents`, `JitterRefinement`, `JitterRuns`, `JitterRestart`, `JitterExamples`, `JitterObject` |
| message parser | `TextStream`, `MessageHeaders`, `MessageModel`, `MessageSegments`, `MessageWire`, `MessageRejects`, `MessageFolds`, `MessageObject` |
| multipart content | `Multipart`, `MultipartRoundTrip`, `MultipartHeaders`, `MultipartObject` |
| task tree | `TaskTree`, `TaskWave`, `TaskObject` |
| timer queue | `TimerModel`, `TimerRuns`, `TimerDeadlines`, `TimerOverdue`, `TimerRelink`, `TimerObject` |
| media context | `ContextModel`, `ContextRelation`, `ContextObject`, `Topology`, `ContextLimits` |
| RTP and audio | `RtpReceiver`, `RtpReports`, `RtpPorts`, `MediaBuffer`, `BufferEvents`, `Dtmf`, `DtmfEndToEnd`, `DtmfDurations`, `DtmfEnds`, `DtmfObject` |
| recorder | `Recorder`, `RecorderMessages` |

Concurrency is modelled as interleaving: a run is any sequence of steps that the
agents, engines or tasks could take, in any order their queues allow. What the
outside world decides is a parameter: whether a socket binds, a thread is
created or an agent accepts a request, which packets arrive, what a callback
does, how a protocol judges a start line and how long a body it announces.
`dafny verify dfyconfig.toml` checks the whole project.

## Where the code does not keep a promise

The code is modelled as it is. Where a property one would expect fails, a lemma
states exactly when it holds; where the list names an input or a run, another
lemma gives one for which it does not.

- A discovery answered without a descriptor is answered to the application but
  not taken off the sub-request counter (`CounterAfterDiscovery`,
  `NeverShortIffNullIsLast`). This can later silence a rejected answer
  (`RejectedAnswerSilencedIff`, run in `SilencedIsReachable`) or send an offer
  early (`StrayReplySendsOfferEarly`). Both signaling agents of the repository
  always pass a descriptor, so the input comes only from an agent outside it.
- The response to a cancelled or failed request does not start the next one, so
  a later request can overtake those queued (`OrderKeptIffNoOvertaking`, run in
  `OvertakingIsReachable`).
- An update or a channel removal before there is an offer stays active for ever
  and holds up the queue (`EveryActiveRequestAwaits`, `StuckForEver`, input in
  `UpdateWithoutOffer`).
- The number of frames free in the jitter buffer is computed unsigned and wraps
  for packets more than a ring ahead (`RingHoldsIffWithinReach`, packet in
  `FarPacketReplacesUnread`). Frames stored before a restart can be played after
  it (`FreshAfterRestartIff`, run in `OldAudioIsPlayed`). The initial delay is
  rounded up but the maximum is not (`DelayWithinMaximum`, configuration in
  `RoundedDelayExceedsMaximum`).
- After a message whose header section is rejected the parser stays in that
  section: the next message is taken for more headers of it
  (`RejectedMessageTakesTheNext`), and whether anything is read again depends on
  what the protocol makes of the two together (`HearsIffNotDeaf`).
- A folded header is read differently when a segment ends at the fold
  (`CutMattersIffFolded`, header in `FoldedHeaderDependsOnSegments`).
- Multipart content round-trips for some boundaries and values only
  (`RoundTripIffGoodBoundary`, `RoundTripIffGoodParts`).
- An advance of the timer clock that rebases it past a timer makes the time of
  that timer wrap, and nothing behind it fires for some 49 days
  (`DueFireIffNoneOverdue`, run in `OverdueIsReachable`). A timer due exactly at
  the rebase cannot be killed any more (`KillsAreObeyedIff`, run in
  `IgnoredKillIsReachable`), which callbacks notice only when two timers are due
  then (`AnyCallbacksWillDoIff`); setting it links it twice (`LinkedTwice`). A timer queue whose timeout is never read fires
  nothing (`NothingFiresUntilTimeoutRead`, `SetKeepsClockRunning`).
- The association counters are bytes (`CountersExactIff`); 256 sinks of one
  source are not served at all (run in `FanIsNotServed`).
- A restart of the audio buffer forgets chunks but not their bytes
  (`RestartKeepsSizeIff`, run in `RestartForgetsBytes`).
- Engines that outnumber the pairs of ports get empty ranges, and a search there
  tries a port of another engine (`SearchableIff`, `TooFewPorts`,
  `EmptySlotTriesNeighbour`). At the top of the port space the cursor leaves its
  range (`CursorStaysIff`, range in `TopOfPortsIsLeft`), and a search from a cursor outside need not end
  (`SearchEndsIff`).
- A tone no longer than a frame has no start (`DigitsArriveIffGoodTiming`,
  `BadTimingFails`). When a new segment starts with the last frame of a tone,
  the end and its repeats tell different durations (`EndsAgreeIff`, timing in
  `LongToneIsUneven`).
- A second request to the recorder displaces the pending one
  (`PendingGetsThroughIff`), and under the same identifier lets a late response
  use a record that is gone (`SharedIdIsNotSafe`). The server of the repository
  keeps one request pending for each session
  (libs/mrcp-server/src/mrcp_server_session.c:278-291), so the second one comes
  only from another caller.
- `apt_cyclic_queue_is_empty` answers the opposite of what its header comment
  says; the model follows the code (`Queue.IsEmpty`).

## Model

| member | source | states |
|---|---|---|
| `SessionCounter.EveryRun` | libs/mrcp-client/src/mrcp_client_session.c:65-92 | in every run from a new session whose discovery replies without a descriptor are each the last of their discovery: the sub-request counter equals the replies the agents still owe, plus one if such a reply came since the counter was last reset; then nothing is owed; the session has been removed once if its termination is complete and never otherwise; the add request being served has sent exactly one offer if its replies are in and none before |
| `SessionCounter.SoundStep` | libs/mrcp-client/src/mrcp_client_session.c:136-354 | every handler, that for the last reply of a discovery without descriptor included, keeps the invariant up to that one count, and the count is left over exactly when the reply resets nothing and no later step does |
| `SessionCounter.CounterAfterDiscovery` | libs/mrcp-client/src/mrcp_client_session.c:245-287 | whatever is queued, the counter is right after a discovery reply if and only if the reply carried a descriptor, or was the last and starts a queued request that resets the counter |
| `SessionCounter.NothingLeftBehind` | libs/mrcp-client/src/mrcp_client_session.c:245-287 | a run in which every discovery reply carries a descriptor leaves nothing over |
| `SessionCounter.RejectedAnswerSilencedIff` | libs/mrcp-client/src/mrcp_client_session.c:190-202 | in every such run a rejected answer gets its request answered if no count is left over, and otherwise changes nothing visible: the request stays active and nothing is awaited any more |
| `SessionCounter.NeverShortIffNullIsLast` | libs/mrcp-client/src/mrcp_client_session.c:245-287 | after a discovery reply without descriptor, with the session registered and nothing queued, the counter stays at least what is owed in all later runs if and only if no other reply of that discovery is still owed |
| `SessionRequests.TerminationAsks` | libs/mrcp-client/src/mrcp_client_session.c:822-898 | terminating an idle session asks the connection agent to remove exactly the channels that have a control channel; asks the media engine, once each, to destroy the topology first and to subtract the termination of every channel and every slot that has one, the last of them an RTP one, and nothing else; and asks the signaling agent once |
| `SessionRequests.AnswerAsks` | libs/mrcp-client/src/mrcp_client_session.c:156-189 | an accepted answer asks the connection agent, in version 2, for exactly the answered channels; asks the media engine, once each, to reset the associations first, to tell every answered slot with a termination the remote side and to apply the topology last; asks for as many associations as such slots have a channel with a termination; and sets identifier and status as the answer says |
| `SessionRequests.MediaAnswerTells` | libs/mrcp-client/src/mrcp_client_session.c:1107-1195 | the same for the processing of the media alone, in both protocol versions |
| `SessionRequests.AddAsks` | libs/mrcp-client/src/mrcp_client_session.c:680-810 | a new channel is appended with its slot; it asks the connection agent in version 2, and the media engine for its own and for the RTP termination if it brings media; when it asks nobody its offer is sent at once |
| `SessionRequests.UncountedReply` | libs/mrcp-client/src/mrcp_client_session.c:83-92 | a reply that no longer counts changes nothing but the books and leaves the counter at zero |
| `SessionRequests.RequestAsks` | libs/mrcp-client/src/mrcp_client_session.c:1197-1308 | a request that reaches an idle session and is not refused is logged, registers the session if it is the first, and is served as its command says: an offer with the resource enabled, disabled or as it was, a new channel, a termination, as many discoveries as were accepted, or a control message sent under the session identifier and failed without one |
| `SessionFailures.SilencedIsReachable` | libs/mrcp-client/src/mrcp_client_session.c:190-202 | for every rejected answer that fits a session of one channel, a run from a new session in which it is silenced |
| `SessionFailures.StrayReplySendsOfferEarly` | libs/mrcp-client/src/mrcp_client_session.c:245-287 | a run in which a reply without descriptor is not the last, so that a later one makes the next request send its offer before its RTP termination is there |
| `SessionResets.ShiftDispatch` | libs/mrcp-client/src/mrcp_client_session.c:1197-1308 | a dispatch does the same whatever the counter was left at, and clears it exactly when one of the requests it gets to sets a stage |
| `SessionOrder.AnsweredInOrder` | libs/mrcp-client/src/mrcp_client_session.c:381-404 | in every run without overtaking, the requests received are those answered, then the active one, then the queued ones, in order and each once |
| `SessionOrder.OrderKeptIffNoOvertaking` | libs/mrcp-client/src/mrcp_client_session.c:381-404 | for requests with new identifiers, that order holds at every moment of a run from any state if and only if no request arrives while others are queued and none is active |
| `SessionOrder.OvertakingBreaksOrder` | libs/mrcp-client/src/mrcp_client_session.c:521-546 | one overtaking request loses the order |
| `SessionOrder.OvertakingIsReachable` | libs/mrcp-client/src/mrcp_client_session.c:521-546 | a run from a new session after which any further request overtakes: the response to a cancelled request does not start the next one |
| `SessionOrder.StepFaithful` | libs/mrcp-client/src/mrcp_client_session.c:441-519 | every step but the arrival of a request, in any state, loses, repeats and reorders no request |
| `SessionOrder.RequestLedger` | libs/mrcp-client/src/mrcp_client_session.c:381-404 | where in that order an arriving request is put, overtaking or not |
| `SessionLiveness.EveryActiveRequestAwaits` | libs/mrcp-client/src/mrcp_client_session.c:812-820 | in every run of that kind an active request waits for a reply, an answer or a control message, unless the session is terminating, an update or removal found no offer to send, or a rejected answer was silenced |
| `SessionLiveness.StuckForEver` | libs/mrcp-client/src/mrcp_client_session.c:441-467 | a request other than a control message that waits for nothing stays active and unanswered under all further steps, and no other is answered either |
| `SessionLiveness.UpdateWithoutOffer` | libs/mrcp-client/src/mrcp_client_session.c:812-820 | the first request of an MRCPv2 session is such a one when it is an update |
| `SessionRuns.RunInv` | libs/mrcp-client/src/mrcp_client_session.c:65-92 | any run that starts in the invariant (counter, waiting flags, structure of channels and slots, what may be outstanding in which stage, log) and has every discovery reply carry a descriptor ends in it; other runs are in `SessionCounter.SoundRun` |
| `SessionRuns.StepInv` | libs/mrcp-client/src/mrcp_client_session.c:136-354 | every handler, for every request, reply, answer and event, keeps that invariant; for a discovery reply without a descriptor see `SessionCounter.SoundStep` |
| `SessionRuns.InitialInv` | libs/mrcp-client/src/mrcp_client.c:665-691 | a new session satisfies the invariant for both protocol versions |
| `SessionRuns.RequestInv` | libs/mrcp-client/src/mrcp_client_session.c:381-404 | an application request, dispatched at once or queued, keeps the invariant |
| `SessionRuns.DispatchInv` | libs/mrcp-client/src/mrcp_client_session.c:1197-1308 | dispatching keeps the invariant through every branch: terminating, cancelled, not registered, registration failed, and each command |
| `SessionRuns.AddChannelInv` | libs/mrcp-client/src/mrcp_client_session.c:680-810 | adding a channel leaves as many sub-requests counted as were sent, or one offer sent when none were |
| `SessionRuns.TerminateSessionInv` | libs/mrcp-client/src/mrcp_client_session.c:822-898 | termination counts exactly the removals and subtractions it asked for plus the signaling request |
| `SessionRuns.DiscoverInv` | libs/mrcp-client/src/mrcp_client_session.c:900-934 | discovery counts the accepted requests, or answers with failure when none was |
| `SessionRuns.AnswerInv` | libs/mrcp-client/src/mrcp_client_session.c:136-203 | an answer of any code, missing or there, with no more media than was offered, keeps the invariant |
| `SessionRuns.MediaAnswerAsks` | libs/mrcp-client/src/mrcp_client_session.c:1107-1195 | processing an answer asks each channel and each RTP termination at most once and counts each question |
| `SessionRuns.RaiseTerminatedInv` | libs/mrcp-client/src/mrcp_client_session.c:419-439 | the removal raised at the end of a termination is the first and only one |
| `SessionRuns.ReplyInv` | libs/mrcp-client/src/mrcp_client_session.c:289-342 | every reply of the connection agent, media engine and signaling agent takes exactly one sub-request off and keeps the invariant; for a discovery reply without a descriptor see `SessionCounter.CounterAfterDiscovery` |
| `SessionRuns.MediaReplyOutcome` | libs/mrcp-client/src/mrcp_client_session.c:936-1091 | a reply of the media engine either only takes a sub-request off or, if it is the last, continues as its stage says: the channel subtraction that would answer too early is never last |
| `SessionRuns.ChannelReplyOutcome` | libs/mrcp-client/src/mrcp_client_session.c:289-342 | likewise for a reply of the connection agent, successful or not |
| `SessionRuns.TerminateBooksBalanced` | libs/mrcp-client/src/mrcp_client_session.c:831-896 | after the requests of a termination counter and flags agree with what was sent, and an RTP subtraction is the last media command |
| `SessionProofs.TerminateChannelsAsks` | libs/mrcp-client/src/mrcp_client_session.c:841-870 | the loop over the channels keeps counter and waiting flags in agreement with what it asks; whom it asks is in `SessionRequests.TerminationAsks` |
| `SessionProofs.TerminateSlotsAsks` | libs/mrcp-client/src/mrcp_client_session.c:872-893 | the loop over the RTP terminations does the same |
| `SessionProofs.RtpSubtractComesLast` | libs/mrcp-client/src/mrcp_client_session.c:872-893 | whatever was sent before, if any slot holds an RTP termination the last media command subtracts one |
| `SessionProofs.ModifyControlsAsks` | libs/mrcp-client/src/mrcp_client_session.c:1107-1144 | so does the loop over the control media of an answer; see `SessionRequests.AnswerAsks` |
| `SessionProofs.ModifySlotsAsks` | libs/mrcp-client/src/mrcp_client_session.c:1146-1195 | so does the loop over the audio media of an answer |
| `SessionOutcomes.EveryReply` | libs/mrcp-client/src/mrcp_client_session.c:205-342 | a reply, for a discovery one with a descriptor, that is not the last changes nothing visible; the last one has exactly the effect of its stage: one offer, one response to the active request with the status reached so far or the failure the connection agent reports, one successful response to a discovery, or one removal followed by one response with no control channel left |
| `SessionOutcomes.TerminationCompletes` | libs/mrcp-client/src/mrcp_client_session.c:419-439 | once a termination has started, under any requests, answers and events in between, as many replies as are owed, in any order the agents allow, end in one removal followed by the response to the terminate request, and before the last of them neither happens |
| `SessionOutcomes.SomeReplyIsPossible` | libs/mrcp-client/src/mrcp_client_session.c:78-92 | as long as replies are owed some agent can give one, so a termination never gets stuck |
| `ClientSession.MrcpSession.ReleaseControlChannels` | libs/mrcp-client/src/mrcp_client_session.c:423-431 | every channel loses its control channel and nothing else changes |
| `ClientSession.MrcpSession.FindChannel` | libs/mrcp-client/src/mrcp_client_session.c:548-562 | the first channel with that identity, or the number of channels |
| `ClientSession.MrcpSession.TerminateAllChannels` | libs/mrcp-client/src/mrcp_client_session.c:841-870 | the loop over the channels is the step function over all of them |
| `ClientSession.MrcpSession.TerminateAllSlots` | libs/mrcp-client/src/mrcp_client_session.c:872-893 | the loop over the slots is the step function over all of them |
| `ClientSession.MrcpSession.ModifyAllControls` | libs/mrcp-client/src/mrcp_client_session.c:1107-1144 | the loop over the control media of an answer is the step function over all of them |
| `ClientSession.MrcpSession.ModifyAllSlots` | libs/mrcp-client/src/mrcp_client_session.c:1146-1195 | the loop over the audio media of an answer is the step function over all of them |
| `ClientSession.MrcpSession.Answered` | libs/mrcp-client/src/mrcp_client_session.c:136-203 | an answer, missing, rejected or accepted, takes its step |
| `CyclicQueue.RingExtends` | libs/apr-toolkit/src/apt_cyclic_queue.c:50-62 | writing at the head appends to the FIFO sequence the ring stands for |
| `CyclicQueue.FullRingUnrolls` | libs/apr-toolkit/src/apt_cyclic_queue.c:86-104 | copying a full ring from its head on keeps the FIFO order |
| `CyclicQueue.GrownSize` | libs/apr-toolkit/src/apt_cyclic_queue.c:86-104 | growing by half makes room if and only if the ring had at least two cells |
| `CyclicQueue.Queue.constructor` | libs/apr-toolkit/src/apt_cyclic_queue.c:31-39 | an empty queue of that size |
| `CyclicQueue.Queue.Push` | libs/apr-toolkit/src/apt_cyclic_queue.c:50-62 | the sequence grows by the object at its end, whether or not the ring had to grow, and nothing is lost |
| `CyclicQueue.Queue.Resize` | libs/apr-toolkit/src/apt_cyclic_queue.c:86-104 | the sequence is unchanged and a cell is free |
| `CyclicQueue.Queue.Pop` | libs/apr-toolkit/src/apt_cyclic_queue.c:64-73 | takes the oldest object, or finds none exactly when the sequence is empty |
| `CyclicQueue.Queue.Clear` | libs/apr-toolkit/src/apt_cyclic_queue.c:75-79 | the sequence is empty |
| `CyclicQueue.Queue.IsEmpty` | libs/apr-toolkit/src/apt_cyclic_queue.c:81-84 | true if and only if the queue is not empty, the opposite of what the header promises |
| `MediaEngine.CommandsKeepTheirOrder` | libs/mpf/src/mpf_engine.c:129-151 | for every client in every interleaving of several clients: executed, sent and collected commands laid end to end are exactly the commands asked for, in order |
| `MediaEngine.DrainedMeansExecuted` | libs/mpf/src/mpf_engine.c:394-412 | after a send and a drained ring all commands of the client are executed, in order |
| `MediaEngine.ContainersFitAndRepliesFollow` | libs/mpf/src/mpf_engine.c:297-392 | no container ever holds more than five messages or none, and the replies repeat the executed commands in order |
| `MediaEngine.DrainingIsARun` | libs/mpf/src/mpf_engine.c:394-412 | the main loop does nothing but a sequence of single rounds |
| `MediaEngine.Engine.MsgProcess` | libs/mpf/src/mpf_engine.c:297-392 | executes a container in order and answers it message by message |
| `MediaEngine.Engine.MainLoop` | libs/mpf/src/mpf_engine.c:394-412 | drains the queue through the growing ring, in order |
| `JitterBuffer.CreatedValid` | libs/mpf/src/mpf_jitter_buffer.c:76-133 | a created buffer is usable if and only if a frame has a duration and the validated maximum delay holds a frame |
| `JitterBuffer.RoundedUp` | libs/mpf/src/mpf_jitter_buffer.c:76-133 | the initial delay becomes the next multiple of the frame time, less than one frame away |
| `JitterBuffer.ValidatedMax` | libs/mpf/src/mpf_jitter_buffer.c:76-133 | the maximum delay used is positive and not below the initial one |
| `JitterBuffer.DeficitCovers` | libs/mpf/src/mpf_jitter_buffer.c:262-272 | statistics may enlarge the adjustment a late packet needs, never shrink it |
| `JitterBuffer.RescuedInTime` | libs/mpf/src/mpf_jitter_buffer.c:252-322 | a late packet that is accepted, by skew or by a longer delay, lands at or after the read position |
| `JitterBuffer.PlacedInTime` | libs/mpf/src/mpf_jitter_buffer.c:229-322 | so does every accepted packet, whatever branch placed it |
| `JitterRefinement.FrameAtIsLastAudio` | libs/mpf/src/mpf_jitter_buffer.c:332-343 | the reference object: the audio of a timestamp is that of the last audio accepted for it, and is missing if and only if none was |
| `JitterRefinement.FrameAtIsLastEvent` | libs/mpf/src/mpf_jitter_buffer.c:356-465 | the same for named events |
| `JitterRefinement.StoredCount` | libs/mpf/src/mpf_jitter_buffer.c:332-343 | how many frames a packet is cut into, and where the write position ends |
| `JitterRefinement.StoredNumbers` | libs/mpf/src/mpf_jitter_buffer.c:332-343 | the frames of a packet go to consecutive frame numbers |
| `JitterRefinement.StoredData` | libs/mpf/src/mpf_jitter_buffer.c:332-343 | frame k holds chunk k of the packet |
| `JitterRefinement.StoreAudioShows` | libs/mpf/src/mpf_jitter_buffer.c:332-343 | storing within one ring keeps the ring equal to the reference for every unread frame |
| `JitterRefinement.WriteRefines` | libs/mpf/src/mpf_jitter_buffer.c:222-354 | a packet within reach, accepted or discarded, keeps that equality |
| `JitterRefinement.WriteEventRefines` | libs/mpf/src/mpf_jitter_buffer.c:356-465 | every named event packet keeps it |
| `JitterRefinement.ReadRefines` | libs/mpf/src/mpf_jitter_buffer.c:467-499 | reading keeps it and moves on by one frame |
| `JitterRuns.RunRefines` | libs/mpf/src/mpf_jitter_buffer.c:222-499 | over every run of packets within reach, named events, reads and restarts the ring shows the reference |
| `JitterRuns.EveryReadShowsWhatWasAccepted` | libs/mpf/src/mpf_jitter_buffer.c:467-499 | every read of every such run hands out what the accepted packets say about its timestamp, or nothing at underflow |
| `JitterRuns.EveryReadIsTheLastAccepted` | libs/mpf/src/mpf_jitter_buffer.c:467-499 | from creation on and without restart, a read shows audio if and only if some was accepted for that frame, and then the last one |
| `JitterRuns.WriteLeavesOthersAlone` | libs/mpf/src/mpf_jitter_buffer.c:222-354 | a packet changes no unread frame other than its own |
| `JitterRuns.StepDelay` | libs/mpf/src/mpf_jitter_buffer.c:298-322 | each step lengthens the delay or leaves it, only if adaptive and never beyond the maximum; only a restart shortens it, to the initial one |
| `JitterRuns.RunDelay` | libs/mpf/src/mpf_jitter_buffer.c:298-322 | over every run the delay never shrinks without a restart, never moves if not adaptive and stays below the maximum if it starts there |
| `JitterRuns.InitialFits` | libs/mpf/src/mpf_jitter_buffer.c:76-133 | the initial delay is within the maximum if and only if its rounded value is |
| `JitterRuns.DelayWithinMaximum` | libs/mpf/src/mpf_jitter_buffer.c:76-133 | the delay is within the maximum in all runs if and only if the rounded initial delay is |
| `JitterRuns.TooFarAheadOverwrites` | libs/mpf/src/mpf_jitter_buffer.c:324-330 | a packet more than a ring ahead passes the unsigned check and destroys an unread frame, for some contents of any size |
| `JitterRuns.RingHoldsIffWithinReach` | libs/mpf/src/mpf_jitter_buffer.c:324-343 | the ring keeps showing the reference for all contents of a packet if and only if it starts at most a ring ahead |
| `JitterTiming.InTimeIsStored` | libs/mpf/src/mpf_jitter_buffer.c:196-220 | a frame of audio that begins a talkspurt is stored for the frame the delay leads to, any other as many frames later as it was sent later, as long as that is not read yet and within the ring |
| `JitterTiming.CreatedIs` | libs/mpf/src/mpf_jitter_buffer.c:76-133 | what a new buffer is: ring, delays in whole frames of 10 ms, defaults, and a clock that waits for the first packet |
| `JitterTiming.LaterBelongsLater` | libs/mpf/src/mpf_jitter_buffer.c:196-220 | after a synchronizing packet one sent k frames later belongs k frames further on |
| `JitterTiming.LateIff` | libs/mpf/src/mpf_jitter_buffer.c:252-322 | without skew detection a late packet is discarded if and only if it is out of order, or the delay may not grow by as much as it is late; otherwise it is played next and the delay grows by exactly that |
| `JitterTiming.AdjustmentLasts` | libs/mpf/src/mpf_jitter_buffer.c:298-322 | after that the next packet of the stream is in time |
| `JitterTiming.LateIffWithSkew` | libs/mpf/src/mpf_jitter_buffer.c:252-322 | with skew detection it is discarded if and only if it is out of order, or the measured drift does not make up for what the delay lacks and the delay may not grow by the rest; exact position, offset, delay and statistics otherwise |
| `JitterTiming.AnswerIff` | libs/mpf/src/mpf_jitter_buffer.c:222-354 | a packet is answered too late exactly when it has no place and too early exactly when its place is the first behind the ring, modulo 64 bits; a refused one changes the clock at most |
| `JitterTiming.ReadMeasures` | libs/mpf/src/mpf_jitter_buffer.c:163-188 | a read moves on by one frame and widens the measured range to the length there is then, starting again at its middle after fifty readings |
| `JitterTiming.RestartIs` | libs/mpf/src/mpf_jitter_buffer.c:139-155 | a restart asks for synchronization, gives back a delay that has reached the maximum, forgets the tracked event and keeps the frames |
| `JitterEvents.EventPacketIs` | libs/mpf/src/mpf_jitter_buffer.c:356-410 | the first packet of an event goes where its timestamp says; a later one is dropped unless it lasts longer than the last one kept, or ends the event at the same duration, and goes behind what that one told; a later segment is tracked from its own place on |
| `JitterEvents.EventPlacedIff` | libs/mpf/src/mpf_jitter_buffer.c:411-464 | an event packet is refused if and only if it is too late for the delay to grow, or beyond the ring; a late one that is kept is played next and lengthens the delay by as much as it was late |
| `JitterEvents.NewsGrow` | libs/mpf/src/mpf_jitter_buffer.c:395-407 | what is kept of an event tells more and more |
| `JitterEvents.MarkerIsLast` | libs/mpf/src/mpf_jitter_buffer.c:446-457 | the marker of a frame is that of the last accepted packet that marked it, start or end of an event, and there is none if none did |
| `JitterEvents.EventIsFollowed` | libs/mpf/src/mpf_jitter_buffer.c:356-465 | of the packets of one event, repeated, lost or out of order, exactly those are kept that tell more than all before, each behind what the one before told |
| `JitterRestart.FreshAfterRestartIff` | libs/mpf/src/mpf_jitter_buffer.c:139-155 | after a restart every read of every run shows only what was accepted since, if and only if every frame of the ring was empty at the restart |
| `JitterRestart.PlayedAfterRestart` | libs/mpf/src/mpf_jitter_buffer.c:139-155 | for every ring and every frame left in it, a run after the restart that plays it |
| `JitterRestart.OldAudioIsPlayed` | libs/mpf/src/mpf_jitter_buffer.c:139-155 | a run from creation: audio, a restart and a named event, after which the old audio is read with the event |
| `JitterExamples.FarPacketReplacesUnread` | libs/mpf/src/mpf_jitter_buffer.c:324-330 | from creation on: a byte is received, and one four frames ahead in a ring of two replaces it before it is read |
| `JitterExamples.RoundedDelayExceedsMaximum` | libs/mpf/src/mpf_jitter_buffer.c:76-133 | an initial delay and a maximum of 15 ms give a delay above the maximum from the start |
| `JitterObject.JitterRing.StoreFrames` | libs/mpf/src/mpf_jitter_buffer.c:332-343 | the in-place loop leaves the array the functional cutting gives |
| `JitterObject.JitterRing.Receive` | libs/mpf/src/mpf_jitter_buffer.c:222-354 | result, clock and array of a write are those of the write step |
| `JitterObject.JitterRing.ReceiveEvent` | libs/mpf/src/mpf_jitter_buffer.c:356-465 | new, repeated and continued events are told apart as in the step |
| `JitterObject.JitterRing.Fetch` | libs/mpf/src/mpf_jitter_buffer.c:467-499 | hands out the shown frame, empties its slot and moves on |
| `TextStream.ReadLine` | libs/apr-toolkit/src/apt_text_stream.c:29-67 | a line contains no end of line; a line that is not finished is not consumed at all |
| `TextStream.ReadHeader` | libs/apr-toolkit/src/apt_text_stream.c:81-146 | a header line is consumed whole, or left alone when its end is missing |
| `TextStream.HeaderOf` | libs/apr-toolkit/src/apt_text_stream.c:81-146 | a field always has a name |
| `TextStream.LineRead` | libs/apr-toolkit/src/apt_text_stream.c:29-67 | the scanning loop reads the line the reference describes, for CR, LF and CRLF |
| `TextStream.HeaderScan` | libs/apr-toolkit/src/apt_text_stream.c:81-146 | the one-pass loop over name and value agrees with the reference that splits the line at its colon |
| `TextStream.EolIs` | libs/apr-toolkit/src/apt_text_stream.c:29-67 | the line ends at the first CR or LF |
| `MessageHeaders.FieldIs` | libs/apr-toolkit/src/apt_text_stream.c:81-146 | white space, a name, a colon, white space and a value are read as that field |
| `MessageHeaders.FieldLayout` | libs/apr-toolkit/src/apt_text_stream.c:81-146 | every line read as a field is laid out so |
| `MessageHeaders.BlankIff` | libs/apr-toolkit/src/apt_text_stream.c:81-146 | a line is blank if and only if it is all white space |
| `MessageHeaders.MalformedIff` | libs/apr-toolkit/src/apt_text_stream.c:81-146 | a line is malformed if and only if no colon follows its first character that is not white space |
| `MessageModel.ParseSection` | libs/apr-toolkit/src/apt_text_message.c:127-152 | a header section that ends has consumed text; one that does not has reached the end of the stream |
| `MessageModel.ReadBody` | libs/apr-toolkit/src/apt_text_message.c:167-193 | an unfinished body takes all there is, a finished one takes something and leaves a valid parser |
| `MessageModel.Run` | libs/apr-toolkit/src/apt_text_message.c:254-341 | an incomplete run reaches the end of the stream and a complete one makes progress, so the receiving loop ends |
| `MessageSegments.LineFeeds` | libs/apr-toolkit/src/apt_text_message.c:254-341 | reading a line of the stream is the same as feeding its characters one by one |
| `MessageSegments.BodyFeeds` | libs/apr-toolkit/src/apt_text_message.c:167-193 | the same for a body, over any number of pieces |
| `MessageSegments.SectionFeeds` | libs/apr-toolkit/src/apt_text_message.c:127-152 | the same for a header section that is cut anywhere |
| `MessageSegments.RunAgrees` | libs/apr-toolkit/src/apt_text_message.c:254-341 | one run of the parser agrees with the reader that takes one character at a time |
| `MessageSegments.ReceiveFeeds` | libs/mrcpv2-transport/src/mrcp_client_connection.c:598-653 | receiving a segment behind an unread tail equals feeding its characters |
| `MessageSegments.ReceiveAllFeeds` | libs/mrcpv2-transport/src/mrcp_client_connection.c:598-653 | the same for any number of segments |
| `MessageSegments.SegmentationDoesNotMatter` | libs/apr-toolkit/src/apt_text_message.c:244-341 | any two ways of cutting the same text, even between CR and LF, give the same messages and the same state, rejected start lines and header sections included; the text has no header line that starts with white space and, for a protocol that takes an empty start line, no rejected one |
| `MessageWire.FeedMessage` | libs/apr-toolkit/src/apt_text_message.c:254-341 | a well-formed message is read back: start line, headers, body of the announced length |
| `MessageWire.FeedMessages` | libs/apr-toolkit/src/apt_text_message.c:254-341 | so is any sequence of messages sent one after the other |
| `MessageWire.EverySegmentationReadsTheMessages` | libs/mrcpv2-transport/src/mrcp_client_connection.c:598-653 | however the text of any messages is cut, the connection reads exactly those messages and keeps nothing back |
| `MessageRejects.RejectedStartLinesAreDropped` | libs/mrcpv2-transport/src/mrcp_client_connection.c:598-653 | however messages and lines that are rejected as start lines are mixed, and however their text is cut, exactly the messages are read and nothing is kept back |
| `MessageRejects.EmptyStartLineMatters` | libs/apr-toolkit/src/apt_text_message.c:244-280 | for a protocol that takes an empty start line, every rejected one is told apart from itself by a cut between its CR and LF |
| `MessageRejects.RejectedMessageTakesTheNext` | libs/apr-toolkit/src/apt_text_message.c:282-303 | after a rejected header section the start line and headers of the next message are taken for more headers of the rejected one, and judged together with them |
| `MessageRejects.HearsIffNotDeaf` | libs/apr-toolkit/src/apt_text_message.c:282-303 | some unfolded text still makes the parser read a message if and only if some further header lines make the protocol accept the header section it is in |
| `MessageRejects.DeafForEver` | libs/mrcpv2-transport/src/mrcp_client_connection.c:642-648 | otherwise no message is read any more, whatever unfolded segments arrive |
| `MessageFolds.CutMattersIffFolded` | libs/apr-toolkit/src/apt_text_message.c:52-118 | after header lines that end in a field, it makes no difference whether the next line comes in the same segment if and only if that line does not start with white space, or is all white space and ends a header section that is rejected |
| `MessageFolds.WholeReadsFold` | libs/apr-toolkit/src/apt_text_message.c:52-118 | a folded line received in the same segment lengthens the value of the field before it |
| `MessageFolds.CutLineIsItsOwn` | libs/apr-toolkit/src/apt_text_message.c:127-152 | received on its own such a line leaves the fields before it alone, or ends the headers when it is all white space, in vain when they are rejected |
| `MessageFolds.FoldedHeaderDependsOnSegments` | libs/apr-toolkit/src/apt_text_message.c:52-118 | a concrete header whose second line is lost when cut at the fold |
| `MessageObject.MessageConnection.SkipWhiteSpace` | libs/apr-toolkit/include/apt_text_stream.h:184-188 | moves to the first character that is not white space |
| `MessageObject.MessageConnection.ReadContinuation` | libs/apr-toolkit/src/apt_text_message.c:52-118 | the folding loop collects every continuing line |
| `MessageObject.MessageConnection.ReadSection` | libs/apr-toolkit/src/apt_text_message.c:127-152 | the loop over the fields is the recursive reading of the section |
| `MessageObject.MessageConnection.ParserRun` | libs/apr-toolkit/src/apt_text_message.c:254-341 | a run from any stage, with the line feed left over from the last segment |
| `MessageObject.MessageConnection.Receive` | libs/mrcpv2-transport/src/mrcp_client_connection.c:598-653 | the tail is kept in front, the parser runs to the end, the new tail is kept |
| `MultipartHeaders.AnyPart` | libs/apr-toolkit/src/apt_multipart_content.c:220-310 | any part is got: text without hyphens in front, any number of hyphens and trailing spaces, any header lines; it has the last type, the last identifier and the last length given, a name standing for the first known header it is a prefix of, and a body of just that length, or the get fails when there is less text |
| `MultipartHeaders.AnyEnd` | libs/apr-toolkit/src/apt_multipart_content.c:220-272 | the same for the line that ends the content |
| `MultipartHeaders.OtherFails` | libs/apr-toolkit/src/apt_multipart_content.c:256-267 | a boundary other than the known one fails |
| `MultipartHeaders.SameIff` | libs/apr-toolkit/src/apt_multipart_content.c:256-267 | boundaries are the same if and only if they are of one length, not empty, and differ in the case of letters at most |
| `MultipartHeaders.AssignsLast` | libs/apr-toolkit/src/apt_multipart_content.c:284-296 | the loop over the headers keeps the last value of each kind |
| `MultipartHeaders.LengthIs` | libs/apr-toolkit/src/apt_multipart_content.c:298-306 | a length is read from its digits, with or without a plus sign, whatever follows |
| `MultipartRoundTrip.RoundTrip` | libs/apr-toolkit/src/apt_multipart_content.c:107-310 | parts written are got back, whatever their bodies contain, with the boundary given or learned, in any letter case |
| `MultipartRoundTrip.RoundTripIffGoodParts` | libs/apr-toolkit/src/apt_multipart_content.c:107-310 | for a good boundary the round trip holds if and only if no type or identifier has an end of line or white space in front |
| `MultipartRoundTrip.RoundTripIffGoodBoundary` | libs/apr-toolkit/src/apt_multipart_content.c:68-83 | it holds for all good parts if and only if the boundary is not empty, has no end of line in it, no hyphen in front and neither a space nor two hyphens at its end |
| `MultipartRoundTrip.GotIsGood` | libs/apr-toolkit/src/apt_multipart_content.c:220-310 | no text at all makes the reader return a value it could not have been given |
| `MultipartRoundTrip.BadBoundaryFails` | libs/apr-toolkit/src/apt_multipart_content.c:244-272 | with a boundary that is not good the first part cannot be got, whatever follows |
| `MultipartRoundTrip.EmptyBoundaryFails` | libs/apr-toolkit/src/apt_multipart_content.c:159-185 | with an empty boundary even an empty content cannot be read to its end |
| `Multipart.LengthRoundTrip` | libs/apr-toolkit/src/apt_multipart_content.c:107-156 | a length written in decimal is read back |
| `Multipart.Get` | libs/apr-toolkit/src/apt_multipart_content.c:220-310 | a part that is got has consumed text within the content |
| `MultipartObject.WriteContent` | libs/apr-toolkit/src/apt_multipart_content.c:68-185 | a whole content is written if and only if its text is shorter than the buffer, and then it is that text |
| `MultipartObject.MultipartWriter.InsertString` | libs/apr-toolkit/src/apt_text_stream.c:452-462 | all of it or nothing, never past the end of the buffer |
| `MultipartObject.MultipartWriter.InsertSize` | libs/apr-toolkit/src/apt_text_stream.c:402-410 | all digits, or a full buffer into which nothing fits any more |
| `MultipartObject.MultipartWriter.InsertField` | libs/apr-toolkit/src/apt_multipart_content.c:107-156 | a header line, a prefix of it when it does not fit |
| `MultipartObject.MultipartWriter.Initialize` | libs/apr-toolkit/src/apt_multipart_content.c:68-83 | the line with the boundary |
| `MultipartObject.MultipartWriter.Add` | libs/apr-toolkit/src/apt_multipart_content.c:107-156 | succeeds if and only if the whole part fits |
| `MultipartObject.MultipartWriter.Finalize` | libs/apr-toolkit/src/apt_multipart_content.c:159-185 | succeeds if and only if the closing line fits |
| `MultipartObject.MultipartReader.SkipToBoundary` | libs/apr-toolkit/src/apt_multipart_content.c:232-242 | skips the preamble and the hyphens |
| `MultipartObject.MultipartReader.Trim` | libs/apr-toolkit/src/apt_multipart_content.c:249-250 | cuts the spaces at the end of the boundary line |
| `MultipartObject.MultipartReader.Collect` | libs/apr-toolkit/src/apt_multipart_content.c:284-296 | a field counts for the first known header its name is a prefix of, and the last of each kind wins |
| `MultipartObject.MultipartReader.GetNext` | libs/apr-toolkit/src/apt_multipart_content.c:220-310 | the loop gets the part the reference reads, learning the boundary the first time |
| `TaskWave.EveryWave` | libs/apr-toolkit/src/apt_task.c:360-374 | for every tree and every order of deliveries: pending starts equal the started children not acknowledged yet, no task completes twice, and a task completes after all the children it started |
| `TaskWave.DrainedWaveIsComplete` | libs/apr-toolkit/src/apt_task.c:467-478 | when no message is left, exactly the started tasks have completed, each once, the root among them |
| `TaskWave.StartedIsComplete` | libs/apr-toolkit/src/apt_task.c:467-478 | in any quiescent state every started task has completed |
| `TaskWave.StepWork` | libs/apr-toolkit/src/apt_task.c:301-348 | every step takes work away |
| `TaskWave.EveryWaveEnds` | libs/apr-toolkit/src/apt_task.c:301-348 | so no order of deliveries goes on for ever |
| `TaskWave.RunInv` | libs/apr-toolkit/src/apt_task.c:360-374 | the counting invariant holds over every run |
| `TaskTree.StartChildInv` | libs/apr-toolkit/src/apt_task.c:146-172 | starting a child, or failing to, keeps the counting invariant |
| `TaskTree.FinishLoopInv` | libs/apr-toolkit/src/apt_task.c:360-374 | so does the end of the loop over the children, with or without pending starts |
| `TaskTree.ProcessInv` | libs/apr-toolkit/src/apt_task.c:467-478 | so does an acknowledgement, which never finds the counter at zero |
| `TaskTree.RaiseInv` | libs/apr-toolkit/src/apt_task.c:526-533 | and telling the parent |
| `TaskObject.StartLoopIsARun` | libs/apr-toolkit/src/apt_task.c:360-374 | the loop that starts the children is a run of single steps that others may interleave |
| `TaskObject.Tasks.ProcessStart` | libs/apr-toolkit/src/apt_task.c:360-374 | the loop over the children takes the steps of the model |
| `TimerRuns.AdvanceFiresTheDue` | libs/apr-toolkit/src/apt_timer_queue.c:72-115 | an advance that leaves no timer overdue, whether or not it rebases the clock and whether or not timers fall due at that very moment, fires due timers only, in order of time; every due timer that did not fire was set or killed by a callback that ran; nothing due is left; the callbacks may do anything but touch a linked timer whose rebased time is 0 |
| `TimerRuns.KillsAreObeyedIff` | libs/apr-toolkit/src/apt_timer_queue.c:189-199 | no timer fires after a callback of the same advance killed it, if and only if the callbacks touch no linked timer whose rebased time is 0 |
| `TimerRuns.ZeroFires` | libs/apr-toolkit/src/apt_timer_queue.c:95-114 | a linked timer whose rebased time is 0 always fires, whatever the callbacks do |
| `TimerRuns.FiresExpected` | libs/apr-toolkit/src/apt_timer_queue.c:95-114 | the firing loop, with such callbacks, fires the due timers the callbacks spare, in order |
| `TimerRuns.FireDueValid` | libs/apr-toolkit/src/apt_timer_queue.c:95-114 | whatever the callbacks do, afterwards the queue is sorted and nothing in it is due |
| `TimerRuns.AnyCallbacksWillDoIff` | libs/apr-toolkit/src/apt_timer_queue.c:86-114 | the callbacks of an advance that leaves no timer overdue may do anything at all, if and only if it does not rebase the clock to the time of two timers at once |
| `TimerRuns.ExpectedMeaning` | libs/apr-toolkit/src/apt_timer_queue.c:95-114 | what the spared timers are: due, ordered, never touched before, and all others touched |
| `TimerRuns.TickValid` | libs/apr-toolkit/src/apt_timer_queue.c:86-93 | moving the clock keeps every remaining time, the order and what is due, rebase included, unless a timer is overdue at a rebase |
| `TimerRuns.RebaseKeepsRemainingIff` | libs/apr-toolkit/src/apt_timer_queue.c:232-242 | rebasing keeps all remaining times if and only if no timer is overdue |
| `TimerRuns.RebaseKeepsArmedIff` | libs/apr-toolkit/src/apt_timer_queue.c:232-242 | it keeps all armed timers armed if and only if none is due at that very moment |
| `TimerRuns.RebaseFiresDueIff` | libs/apr-toolkit/src/apt_timer_queue.c:86-114 | after a rebase the timers the loop finds due from the front are those that were due if and only if nothing was overdue, and otherwise none |
| `TimerOverdue.DueFireIffNoneOverdue` | libs/apr-toolkit/src/apt_timer_queue.c:72-115 | an advance at which timers are due fires any of them if and only if it leaves none overdue at a rebase |
| `TimerOverdue.OverdueFiresNothing` | libs/apr-toolkit/src/apt_timer_queue.c:232-242 | an advance that rebases past a timer fires nothing at all, and its scheduled time wraps to just below 2^32 |
| `TimerOverdue.BehindNeverFires` | libs/apr-toolkit/src/apt_timer_queue.c:95-114 | over every run, however the times are wrapped: of two timers left alone, one linked behind the other does not fire before the other is due |
| `TimerOverdue.OverdueIsReachable` | libs/apr-toolkit/src/apt_timer_queue.c:72-115 | a run from an empty queue: two timers set, one advance 50 ms past the first and past 65535, nothing fires, and the second does not fire either for as long as the wrapped time lasts |
| `TimerOverdue.KilledTimerFires` | libs/apr-toolkit/src/apt_timer_queue.c:189-199 | of two timers due exactly at the rebase, the second fires although the callback of the first killed it |
| `TimerOverdue.IgnoredKillIsReachable` | libs/apr-toolkit/src/apt_timer_queue.c:189-199 | a run from an empty queue that does so |
| `TimerRelink.LinkedTwice` | libs/apr-toolkit/src/apt_timer_queue.c:161-215 | what setting a timer that is linked with a time of 0 does to the pointers of the ring: it is linked again behind the last timer that elapses no later; if that is another one, those in between are not found any more from the front, and from the tail the head never is; if it is the timer itself, the ring never leaves it in either direction |
| `TimerRelink.LinksBetween` | libs/apr-toolkit/src/apt_timer_queue.c:201-215 | the same four assignments link a timer that is not linked at its place in both directions |
| `TimerRelink.NeverBack` | libs/apr-toolkit/src/apt_timer_queue.c:201-215 | in a ring linked twice no number of steps back from the tail leads to the head, so a search that no timer stops does not end |
| `TimerModel.SetValid` | libs/apr-toolkit/src/apt_timer_queue.c:161-186 | setting a timer keeps the queue sorted without repeats and makes nothing due |
| `TimerModel.PerformValid` | libs/apr-toolkit/src/apt_timer_queue.c:161-199 | so does any call a callback may make |
| `TimerModel.RemoveChained` | libs/apr-toolkit/src/apt_timer_queue.c:217-230 | removing a timer keeps the links right, sorted or not, and makes nothing due |
| `TimerModel.PerformChained` | libs/apr-toolkit/src/apt_timer_queue.c:161-199 | so does any call, in a queue with wrapped times too |
| `TimerModel.InsertOrdered` | libs/apr-toolkit/src/apt_timer_queue.c:201-215 | the search from the tail inserts at a place that keeps the order |
| `TimerDeadlines.EveryRunStaysSorted` | libs/apr-toolkit/src/apt_timer_queue.c:72-242 | over every run that leaves no timer overdue at a rebase the queue stays sorted, armed timers are exactly the linked ones, and nothing due stays in it |
| `TimerDeadlines.ArmedTimerFiresOnTime` | libs/apr-toolkit/src/apt_timer_queue.c:161-186 | in every such run a timer set on a running clock and left alone fires if and only if the time that passed reaches its timeout |
| `TimerDeadlines.NotBeforeItsTime` | libs/apr-toolkit/src/apt_timer_queue.c:72-115 | the same for a timer already linked, by its remaining time |
| `TimerDeadlines.AdvanceOneTimer` | libs/apr-toolkit/src/apt_timer_queue.c:72-115 | one advance fires it if and only if its remaining time has passed, and otherwise shortens that by exactly the time passed |
| `TimerDeadlines.SetKeepsClockRunning` | libs/apr-toolkit/src/apt_timer_queue.c:161-186 | setting a timer leaves the clock running if and only if it ran before and the timer was not alone in the queue |
| `TimerDeadlines.KillStopsClockIff` | libs/apr-toolkit/src/apt_timer_queue.c:217-230 | killing the only timer sets the clock to zero and stops it, killing one of several leaves the clock as it is |
| `TimerDeadlines.NothingFiresUntilTimeoutRead` | libs/mpf/src/mpf_engine.c:414-418 | while the queue is reset, no amount of time fires anything until the timeout is read, which the media engine never does |
| `TimerDeadlines.TimeoutIsTheSmallest` | libs/apr-toolkit/src/apt_timer_queue.c:124-146 | the timeout read is the smallest remaining time |
| `TimerObject.TimerQueue.Link` | libs/apr-toolkit/src/apt_timer_queue.c:201-215 | the loop from the tail finds the place the insertion function gives |
| `TimerObject.TimerQueue.RunCallback` | libs/apr-toolkit/src/apt_timer_queue.c:95-114 | the calls of a callback, one after the other |
| `TimerObject.TimerQueue.Reschedule` | libs/apr-toolkit/src/apt_timer_queue.c:232-242 | the loop from the last timer to the first subtracts the clock from each once, wrapping at 32 bits |
| `TimerObject.TimerQueue.FireLoop` | libs/apr-toolkit/src/apt_timer_queue.c:95-114 | the loop fires what the firing function fires, in any linked queue |
| `TimerObject.TimerQueue.AdvanceTime` | libs/apr-toolkit/src/apt_timer_queue.c:72-115 | the whole advance, rebase and firing loop, overdue timers included |
| `ContextModel.EveryContext` | libs/mpf/src/mpf_context.c:170-366 | in every run of the operations as they act on the set of cells, cells join occupied slots only, the count is that of the occupied slots, and bytes can hold the number of cells in every row and column; that the counters the code steps up and down are those numbers is what the methods of `MediaContext` prove |
| `ContextModel.StepInv` | libs/mpf/src/mpf_context.c:170-366 | each operation, failed or not, keeps that |
| `ContextModel.ReusedSlotIsFresh` | libs/mpf/src/mpf_context.c:170-193 | a slot taken again starts without associations and with zero counters |
| `ContextRelation.EveryPair` | libs/mpf/src/mpf_context.c:170-366 | in every run two terminations are linked if and only if the operations, one after the other, say so: associating links in the compatible directions, dissociating and resetting unlink, adding starts and subtracting ends without links |
| `ContextRelation.AddRelates` | libs/mpf/src/mpf_context.c:170-193 | unless the context is full an added termination is present and linked to nothing, and all others stay |
| `ContextRelation.SubtractRelates` | libs/mpf/src/mpf_context.c:195-240 | a subtracted termination is gone with its links, and all others stay |
| `ContextRelation.AssociateRelates` | libs/mpf/src/mpf_context.c:242-282 | exactly the two are linked, in the compatible directions |
| `ContextRelation.DissociateRelates` | libs/mpf/src/mpf_context.c:284-320 | exactly the two are unlinked, in both directions |
| `ContextLimits.CountersExactIff` | libs/mpf/src/mpf_context.c:242-282 | the counters are right in all runs of a context if and only if it has fewer than 256 slots |
| `ContextLimits.FanIsNotServed` | libs/mpf/src/mpf_context.c:381-415 | a run for every larger context: a termination with 256 sinks has the counter 0, and applying the topology creates nothing for them |
| `ContextObject.MediaContext.SwitchOff` | libs/mpf/src/mpf_context.c:306-318 | a cell goes off and both counters follow, only if it was on |
| `ContextObject.MediaContext.SwitchOn` | libs/mpf/src/mpf_context.c:264-280 | a cell goes on and both counters follow, only if it was off |
| `ContextObject.MediaContext.AddTermination` | libs/mpf/src/mpf_context.c:170-193 | takes the first empty slot or fails |
| `ContextObject.MediaContext.ClearSlot` | libs/mpf/src/mpf_context.c:210-230 | the loop that stops after as many slots as are occupied has cleared every cell of the slot |
| `ContextObject.MediaContext.SubtractTermination` | libs/mpf/src/mpf_context.c:195-240 | removes the termination and all its associations, or fails |
| `ContextObject.MediaContext.AddAssociation` | libs/mpf/src/mpf_context.c:242-282 | associates in the directions that are compatible |
| `ContextObject.MediaContext.RemoveAssociation` | libs/mpf/src/mpf_context.c:284-320 | dissociates in both directions |
| `ContextObject.MediaContext.ClearFrom` | libs/mpf/src/mpf_context.c:344-363 | the inner loop clears the cells on its side of the diagonal |
| `ContextObject.MediaContext.ResetAssociations` | libs/mpf/src/mpf_context.c:322-366 | the triangular loops with their skips clear every cell |
| `Topology.TopologyServesTheMatrix` | libs/mpf/src/mpf_context.c:381-415 | the objects created serve no pair that is off, each pair that is on at least once, and twice exactly when a multiplier and a mixer both take it |
| `Topology.ArraysAreFilled` | libs/mpf/src/mpf_context.c:479-535 | the loops fill exactly the arrays that the counters sized, with exactly the cells that are on |
| `Topology.CreateBridge` | libs/mpf/src/mpf_context.c:445-477 | a bridge to the one sink, unless that sink is left to a mixer |
| `Topology.Collect` | libs/mpf/src/mpf_context.c:479-535 | the early-ending loop collects all terminations, in ascending order |
| `Topology.CreateObjects` | libs/mpf/src/mpf_context.c:397-411 | bridge, multiplier and mixer of one termination |
| `Topology.ApplyTopology` | libs/mpf/src/mpf_context.c:381-415 | the loop, which stops once it has met all terminations, creates the objects of all of them, in order |
| `RtpReceiver.EpochTracksTruth` | libs/mpf/src/mpf_rtp_stream.c:703-725 | from the first packet of a source until the next restart, with any payloads, packets of other sources, bad headers and reports in between, and over any number of 16-bit cycles: as long as its true sequence numbers do not jump, the packets of the source, the expected number and the cumulative loss are counted exactly |
| `RtpReceiver.TracksTrueNumber` | libs/mpf/src/mpf_rtp_stream.c:703-725 | within reach, the extended number follows the true one if and only if the jump is below the dropout limit |
| `RtpReceiver.ExtendedGrows` | libs/mpf/src/mpf_rtp_stream.c:703-725 | the extended number never falls and grows by exactly the 16-bit distance |
| `RtpReceiver.EveryReportFits` | libs/mpf/src/mpf_rtp_stream.c:607-658 | in every run the division of a report is safe, the fraction fits its byte and is the lost share of the interval |
| `RtpReceiver.FractionFits` | libs/mpf/src/mpf_rtp_stream.c:607-658 | the fraction fits a byte even where the shift wraps around |
| `RtpReceiver.ReceiveInv` | libs/mpf/src/mpf_rtp_stream.c:788-860 | every packet of any source and payload keeps the receiver in order |
| `RtpReceiver.ReportInv` | libs/mpf/src/mpf_rtp_stream.c:607-658 | so does every report |
| `RtpReports.ReportTellsTheLoss` | libs/mpf/src/mpf_rtp_stream.c:648-653 | at any moment of an epoch a report tells the packets lost since its first one, below 2^23 exactly and otherwise their two's complement in 24 bits; the next interval starts where this one ends |
| `RtpReports.IntervalIsBetweenReports` | libs/mpf/src/mpf_rtp_stream.c:607-646 | between two reports of an epoch the packets expected are those by which the highest true number grew, the packets received those that arrived, and the fraction is their loss |
| `RtpReports.EpochCounts` | libs/mpf/src/mpf_rtp_stream.c:788-860 | over an epoch received, invalid, ignored and discarded packets are counted exactly |
| `RtpReports.OwnEndsEpochIff` | libs/mpf/src/mpf_rtp_stream.c:774-786 | a packet of the source restarts the receiver if and only if its timestamp drifts, or it is audio that was not taken and more than 30 in a hundred were discarded since the last report; the restart clears everything but source, last report and the count of restarts |
| `RtpReports.SixthTakesOver` | libs/mpf/src/mpf_rtp_stream.c:666-695 | a new source takes over with its sixth packet in a row and not before; until then its packets are invalid |
| `RtpReports.OwnEndsProbation` | libs/mpf/src/mpf_rtp_stream.c:666-695 | a packet of the source in between ends the probation |
| `DtmfEndToEnd.DigitsArriveIffGoodTiming` | libs/mpf/src/mpf_dtmf_generator.c:201-339 | digits queued are the digits detected, in order, in all runs that lose none, if and only if a frame has a duration and a tone is longer than a frame |
| `DtmfEndToEnd.DigitsArriveIffNoneLost` | libs/mpf/src/mpf_dtmf_detector.c:167-179 | with such timing, in every run: nothing is missing if and only if the detector counted no lost digit |
| `DtmfEndToEnd.BadTimingFails` | libs/mpf/src/mpf_dtmf_generator.c:268-296 | for any other timing a run in which a digit is missing or doubled |
| `DtmfEndToEnd.EveryToneIsWellFormed` | libs/mpf/src/mpf_dtmf_generator.c:238-331 | the frames of every run form whole events: a start, updates, new segments, and the end three times |
| `DtmfEndToEnd.FrameTakes` | libs/mpf/src/mpf_dtmf_generator.c:206-234 | a tone starts with exactly the next digit of the queue, other characters skipped |
| `DtmfEndToEnd.FrameShape` | libs/mpf/src/mpf_dtmf_generator.c:238-331 | each frame continues the event where it stands |
| `DtmfDurations.EveryTone` | libs/mpf/src/mpf_dtmf_generator.c:201-331 | a digit is sent as exactly the frames of its tone: each tells how long its segment has lasted, as far as a frame can tell, the first starts the event, a new segment is marked, the last ends it, and two more ends follow |
| `DtmfDurations.NothingToSend` | libs/mpf/src/mpf_dtmf_generator.c:206-234 | a queue without digits is emptied at once and nothing is sent |
| `DtmfDurations.EveryQueueFits` | libs/mpf/src/mpf_dtmf_generator.c:161-182 | in every run neither the queue of the generator nor the buffer of the detector holds more than 32 digits |
| `DtmfDurations.QueuedIff` | libs/mpf/src/mpf_dtmf_generator.c:161-182 | digits are queued all or none, if and only if no more than 32 are waiting then |
| `DtmfDurations.DrainsOldest` | libs/mpf/src/mpf_dtmf_detector.c:137-148 | the detector gives its digits out one by one, the oldest first |
| `DtmfDurations.SilenceIs` | libs/mpf/src/mpf_dtmf_generator.c:332-337 | then nothing is sent for exactly the rest of the silence, at least one frame, and the generator is ready for the next digit |
| `DtmfEnds.EndsAgreeIff` | libs/mpf/src/mpf_dtmf_generator.c:268-331 | in all runs the three ends of every event carry the same duration, if and only if the last frame of a tone does not start a new segment; whether it does follows from tone and frame duration alone |
| `DtmfEnds.UnevenEnds` | libs/mpf/src/mpf_dtmf_generator.c:304-331 | for every timing for which it does, a run whose first end has the duration of one frame and its repeats 65535 |
| `DtmfEnds.LongToneIsUneven` | libs/mpf/src/mpf_dtmf_generator.c:304-331 | such a timing: a tone of 65680 in frames of 80 |
| `Dtmf.EventsRoundTrip` | libs/mpf/src/mpf_named_event.c:48-74 | the conversions between characters and event identifiers undo each other exactly on digits and on valid identifiers |
| `DtmfObject.DtmfGenerator.Begin` | libs/mpf/src/mpf_dtmf_generator.c:206-234 | the loop takes characters up to the next digit |
| `MediaBuffer.BytesComeOutInOrder` | libs/mpf/src/mpf_buffer.c:83-168 | at every moment of every run of writes, events and reads of any frame size, the bytes read and the bytes left are the bytes written, and size is the number left |
| `MediaBuffer.CopyTakesNextBytes` | libs/mpf/src/mpf_buffer.c:119-168 | a read over any number of chunks takes the next bytes, as many as are needed or there are |
| `MediaBuffer.StepFaithful` | libs/mpf/src/mpf_buffer.c:83-168 | each operation keeps this |
| `MediaBuffer.OpenedFaithful` | libs/mpf/src/mpf_buffer.c:39-49 | a new buffer starts so |
| `MediaBuffer.RestartKeepsSizeIff` | libs/mpf/src/mpf_buffer.c:59-65 | a restart leaves size right if and only if no chunk but the current one had bytes |
| `MediaBuffer.RestartForgetsBytes` | libs/mpf/src/mpf_buffer.c:59-65 | from an empty buffer: audio is written, the buffer restarted, nothing is left to be read and the size is that of the audio |
| `MediaBuffer.RestartKeepsCurrentChunk` | libs/mpf/src/mpf_buffer.c:59-65 | after a restart the rest of the current chunk is still read |
| `MediaBuffer.AudioBuffer.Append` | libs/mpf/src/mpf_buffer.c:83-100 | appends a chunk and counts its bytes |
| `MediaBuffer.AudioBuffer.CopyPiece` | libs/mpf/src/mpf_buffer.c:125-158 | one turn of the loop, for a chunk longer than, as long as and shorter than what is needed |
| `MediaBuffer.AudioBuffer.CopyLoop` | libs/mpf/src/mpf_buffer.c:125-160 | the loop copies what the recursive copy does |
| `MediaBuffer.AudioBuffer.ReadFrame` | libs/mpf/src/mpf_buffer.c:119-168 | the frame holds the next bytes and then zeros, and the bytes read are gone |
| `BufferEvents.ReadReports` | libs/mpf/src/mpf_buffer.c:119-168 | a read reports exactly the kinds of the chunks it gets to, so that an event is reported by the read that gets to the bytes it was written behind and not by one that ends just there; the chunks read to their end are gone, the others stay in order |
| `BufferEvents.GoneIs` | libs/mpf/src/mpf_buffer.c:119-160 | the chunks read to their end are exactly those whose bytes, with all in front of them, fit the frame |
| `BufferEvents.EventIsLast` | libs/mpf/src/mpf_buffer.c:102-117 | an event written is the last of the chunks, behind all bytes, and takes none |
| `BufferEvents.AudioIsLast` | libs/mpf/src/mpf_buffer.c:83-100 | so is audio, with its bytes |
| `RtpPorts.RangesPartition` | libs/mpf/src/mpf_rtp_termination_factory.c:145-178 | for every number of engines the ranges follow each other from the first port to the last, each starting at an even distance |
| `RtpPorts.RangesAreDisjoint` | libs/mpf/src/mpf_rtp_termination_factory.c:145-178 | no port belongs to two engines |
| `RtpPorts.RangesCover` | libs/mpf/src/mpf_rtp_termination_factory.c:145-178 | every port belongs to one |
| `RtpPorts.PortFactory.Split` | libs/mpf/src/mpf_rtp_termination_factory.c:145-178 | the in-place rewriting of the ranges gives the partition |
| `RtpPorts.PortFactory.Assign` | libs/mpf/src/mpf_rtp_termination_factory.c:120-180 | assigning an engine once or again keeps the partition |
| `RtpPorts.SearchableIff` | libs/mpf/src/mpf_rtp_termination_factory.c:145-178 | every engine gets a range in which its cursor is a port of its own, if and only if there are two ports for each engine, or one for the only one |
| `RtpPorts.TooFewPorts` | libs/mpf/src/mpf_rtp_termination_factory.c:145-178 | with fewer ports every engine but the last has an empty range at the first port |
| `RtpPorts.EmptySlotTriesNeighbour` | libs/mpf/src/mpf_rtp_termination_factory.c:145-178 | two engines on three ports: the first has no port, and the second is given the one the first would try |
| `RtpPorts.Search` | libs/mpf/src/mpf_rtp_stream.c:169-196 | the search tries the ports of one round from the cursor on, the cursor coming back last, finds the first that can be bound, and gives up only after the whole round |
| `RtpPorts.SearchTriesCandidates` | libs/mpf/src/mpf_rtp_stream.c:175-186 | in a range that does not reach the top of the port space such a round is the candidates, each once |
| `RtpPorts.SearchIsComplete` | libs/mpf/src/mpf_rtp_stream.c:169-196 | giving up means that no port of the range can be bound |
| `RtpPorts.RoundVisitsEachOnce` | libs/mpf/src/mpf_rtp_stream.c:175-186 | a round visits every port of the range exactly once |
| `RtpPorts.SearchEndsIff` | libs/mpf/src/mpf_rtp_stream.c:175-186 | for every range and cursor: the cursor comes back, so that a search without a free port ends, if and only if it started on a candidate, on the only port of an empty range, or where nothing stops it |
| `RtpPorts.CursorStaysIff` | libs/mpf/src/mpf_rtp_stream.c:175-180 | the cursor stays within the range if and only if the range does not end at port 65535 with an even first port above 0 |
| `RtpPorts.TopOfPortsIsLeft` | libs/mpf/src/mpf_rtp_stream.c:175-180 | the range from 65500 to 65535 is left at port 0 |
| `RtpPorts.EmptyRangeTriesOne` | libs/mpf/src/mpf_rtp_stream.c:175-186 | a search in an empty range tries one port, which is behind the range |
| `RecorderMessages.EveryRequest` | libs/mrcp-engine/src/mrcp_recorder_state_machine.c:254-270 | in every run of that kind an active machine forwards a request or answers it at once, one of them and once, as the client's knowledge of a record demands |
| `RecorderMessages.EveryResponse` | libs/mrcp-engine/src/mrcp_recorder_state_machine.c:273-298 | it passes the response to the pending request on once; a stop response lists the record the client knows, which is over then |
| `RecorderMessages.StrayResponse` | libs/mrcp-engine/src/mrcp_recorder_state_machine.c:273-284 | a response to anything but the pending request changes nothing |
| `RecorderMessages.EveryEvent` | libs/mrcp-engine/src/mrcp_recorder_state_machine.c:301-317 | it passes the start of input on if and only if it is about the record the client knows, and the completion if and only if, besides, no stop is pending |
| `RecorderMessages.DeactivationStops` | libs/mrcp-engine/src/mrcp_recorder_state_machine.c:342-370 | a deactivation asks the engine to stop the record in progress under its identifier plus one, and asks nothing without one |
| `RecorderMessages.DeactivationCompletes` | libs/mrcp-engine/src/mrcp_recorder_state_machine.c:155-163 | the response to that ends the record and completes the deactivation without a word to the client |
| `RecorderMessages.NothingAfterDeactivation` | libs/mrcp-engine/src/mrcp_recorder_state_machine.c:61-78 | once deactivated the machine never sends the client anything, whatever client and engine do |
| `Recorder.RecordsEndAtMostOnce` | libs/mrcp-engine/src/mrcp_recorder_state_machine.c:55-370 | in every run in which a response under the identifier of the pending request carries its method: a RECORD-COMPLETE, or a STOP response listing a record, always ends the record whose in-progress response came last before it, and nothing began or ended in between |
| `Recorder.RecordsEndOnceWhileActive` | libs/mrcp-engine/src/mrcp_recorder_state_machine.c:55-370 | once an active machine has no record, every record that began was ended by exactly one such message, the next one |
| `Recorder.EveryRun` | libs/mrcp-engine/src/mrcp_recorder_state_machine.c:55-370 | in every such run a record exists if and only if the machine records, a stop is only awaited while recording, the messages passed on say which record is open, and no handler meets a missing record |
| `Recorder.StepInv` | libs/mrcp-engine/src/mrcp_recorder_state_machine.c:254-370 | each request, response, event and deactivation keeps that |
| `Recorder.HonestIsSafe` | libs/mrcp-engine/src/mrcp_recorder_state_machine.c:155-163 | such a response makes no handler use a record that is not there |
| `Recorder.DishonestResponseIsNotSafe` | libs/mrcp-engine/src/mrcp_recorder_state_machine.c:155-163 | a concrete response with another method, which would |
| `Recorder.EveryAnsweringRunIsHonest` | libs/mrcp-engine/src/mrcp_recorder_state_machine.c:273-298 | every run is one of those if each response of the engine answers some request forwarded to it, pending or displaced, and no two forwarded requests share an identifier, the internal stop of a deactivation counted |
| `Recorder.SharedIdIsNotSafe` | libs/mrcp-engine/src/mrcp_recorder_state_machine.c:155-163 | with a shared identifier it need not be: a run in which the answer to a forwarded stop finds no record |
| `Recorder.PendingGetsThroughIff` | libs/mrcp-engine/src/mrcp_recorder_state_machine.c:55-69 | after a second request the response to the pending one is still passed on if and only if the method is unknown, or the request is forwarded under the same identifier; otherwise it is dropped, although alone it would have been passed on |

## Left out

- TimerObject.TimerQueue.AdvanceTime: callbacks do not set a timer that is linked with a rebased time of 0, because the ring is no list any more afterwards; what its pointers are then is `LinkedTwice`. Killing such a timer is modelled.
- TimerObject.TimerQueue.Timeout: the 32-bit sum of clock and timeout does not wrap in the model.
- JitterObject.JitterRing.Receive: timestamps are mathematical integers, so their 32-bit wrap-around is not modelled; only the unsigned number of free frames wraps, and a position before the read position is late even where the code would see a huge one.
- JitterObject.JitterRing.ReceiveEvent: the last event update is kept by value, where the code keeps a pointer into the ring; the minimum playout delay is not modelled because the code clamps it and never uses it.
- ContextObject.MediaContext.SwitchOn: the matrix is the set of the cells that are on, where the code has rows of flags; whether two streams have compatible directions is a parameter of the association.
- ContextObject.MediaContext.ResetAssociations: is stated for exact counters, which every context of fewer than 256 slots has in all runs (`CountersExactIff`); the repository creates contexts of at most five.
- Topology.ApplyTopology: is stated for exact counters too, see `FanIsNotServed` for others; stream objects are built by functions outside this model and always come out.
- CyclicQueue.Queue.Push: asks a full ring to have at least two cells, because a smaller one does not grow and the store would fall outside it; every ring in the repository starts with a hundred.
- RtpPorts.Search: is stated for a cursor that comes back, because from any other the loop need not end (`SearchEndsIff`); an engine is given its range before its first search.
- RtpReceiver.ReceiverStats.PacketReceive: timestamp arithmetic and jitter are a parameter that says whether a drift was seen, and packet counts do not wrap.
- MessageObject.MessageConnection.Receive: the receive buffer is unbounded, a segment is never empty, what the protocol makes of a header section depends on its start line and fields only, and every complete message has its channel: the client leaves the loop after an unexpected response.
- MultipartObject.MultipartReader.GetNext: lengths are non-negative and fit an int, as atoi requires.
- Recorder.RecorderMachine.ResponseUpdate: is stated for responses that do not use a missing record, which the code would dereference; `HonestIsSafe` and `EveryAnsweringRunIsHonest` say when none does.
- ClientSession.MrcpSession.Answered: answers describe no more media than was offered, because the code indexes its channels and slots by the media of the answer, and every channel has its own slot; descriptors are counts and flags.
- SessionCounter.EveryRun: runs in which a discovery reply without descriptor comes before another reply of the same discovery have no relation between counter and owed replies, see `NeverShortIffNullIsLast` and `StrayReplySendsOfferEarly`; the same runs are left out of `EveryActiveRequestAwaits` and `RejectedAnswerSilencedIff`.
- TimerRuns.KillsAreObeyedIff: leaves out the same callbacks as `AdvanceTime`.
- SessionCounter.NeverShortIffNullIsLast: is stated for an empty queue, because a queued request that finds no offer to send holds up all that could reset the counter.
- SessionRuns.AnswerInv: asks for the same answers as the session object.
- SessionRuns.MediaAnswerAsks: asks for the same answers.
- The server side of the session protocol, which has the same structure of sub-requests and would add easier members.
- The synthesizer, recognizer and verifier state machines; the recorder's stands for the family, and the queue of pending requests that some of them add is not covered.
- The terminate, offline and online waves of the task tree, which count the way the start wave does.
- The in-band half of DTMF: sine generation and the Goertzel detector work in floating point.
- Bridge, multiplier and mixer sample processing, resampling and codecs.
- SDP, RTSP and SIP signaling, sockets, threads, pools, logging and configuration loading.
- The message generator, header value tables, NLSML and the header-list variant of adding a part.
- RTCP packets other than the numbers a report is made of.
