# dap-mux: verified models

dap-mux lets several debug clients share one debug adapter. It renumbers the clients' requests, routes the
responses back, broadcasts the adapter's events, answers `initialize` from a buffer and a cache, keeps single
clients from ending the session, and brings late joiners up to date. This project models that logic, the
message framing of both of its decoders, the client that its IPython extension contains, and the shortest-path
search of its Rust demo, and proves what they promise.

| file | contents |
|---|---|
| `Messages.dfy` | JSON messages as far as they are inspected, and the decisions of `compat.py` |
| `MuxModel.dfy` | the multiplexer as a state machine over four kinds of steps, with its history |
| `MuxInvariant.dfy` | the invariant that ties the maps, the queues and the fate of every request together |
| `ClientQueue.dfy`, `MuxQueues.dfy` | what one client's queue holds, and that every queue always does |
| `MuxForwarding.dfy` | which requests go upstream, as a function of the requests alone |
| `MuxProtocol.dfy` | what is sent in which phase, which response is the answer, who is registered |
| `MuxTheorems.dfy`, `ReverseRequests.dfy` | the theorems about whole runs |
| `Meanings.dfy`, `Promises.dfy`, `EventFolds.dfy`, `Recipients.dfy` | what the tests on messages mean, and the main theorems again, told by the texts and fields of the messages alone |
| `Departures.dfy`, `MuxCapabilities.dfy`, `FirstClient.dfy`, `LocalAnswers.dfy`, `GreetingOrder.dfy`, `Raising.dfy` | more of them: clients that have left, which capabilities clients are told, which initializes the multiplexer answers and in which order, and what one that raises leads to |
| `SequenceMap.dfy`, `Connections.dfy`, `Mux.dfy` | the objects with their mutable fields, proved against the state machine |
| `Framing.dfy`, `Decoders.dfy`, `WireFormat.dfy` | the encoder, the reader that takes headers byte by byte, and the bytes on the wire as text |
| `Chunks.dfy`, `Turns.dfy`, `Cuts.dfy`, `Readers.dfy` | the reader that takes chunks, what it does with each kind of header, what cutting the stream changes, and both readers compared |
| `DapClient.dfy`, `Deliveries.dfy`, `EndToEnd.dfy` | concurrent callers of `send_request`, what is delivered to them, and the same behind the multiplexer |
| `Walks.dfy`, `Entries.dfy` | graphs, walks and their costs, and the order of the heap |
| `Searching.dfy`, `Keys.dfy`, `Levels.dfy`, `ShortestPath.dfy`, `Ties.dfy` | Dijkstra's algorithm with lazy deletion, the order in which nodes of the same distance leave the heap, and what weights of zero change |

How the multiplexer is put together: a handler runs to completion before the next one starts, because it only
ever waits for a put on an unbounded queue. `MuxModel.Next` is the effect of one handler; the methods of
`Mux.Multiplexer` work on the fields of the program, and are proved to have exactly that effect on the ghost
field `model` and to extend the ghost field `run` by their step; and the theorems hold in every `Reachable`
state and along every `Legal` run, whatever the clients and the adapter send in whatever order. The history
fields of a state (requests, fates, upstream, adapter, queues, joined, left) and the origin of a queued message
exist for the proofs only; nothing in a step depends on them.

The theorems are stated over predicates such as `KindOf` and `IsBroadcast`. `Meanings` says what each of these is in
terms of the protocol's own names, `Says(m, Command, "terminate")` for instance, and `Promises`, `EventFolds`,
`Recipients`, `WireFormat` and `Turns` state what the multiplexer and the readers do in these terms, with none of the
functions that specify the steps.

Properties that one might expect and that do not hold, with the condition under which they do:

- A buffered `initialize` is not always answered. `configurationDone` moves the phase to CONFIGURED from any
  phase, so that one which arrives while another client's `initialize` is buffered leaves it unanswered for
  good. `StrandedExactlyWhenOvertaken` proves that this is the only way to leave buffered requests behind
  outside the INITIALIZING phase, `StrandedForever` that they are never answered, `AnOvertakingRun` gives a run.
- Not all clients are told the same capabilities. There are two ways to that. A `configurationDone` before the
  response to the first `initialize` keeps the multiplexer from caching them, also when nothing is buffered, so
  that later clients are told none (`AnEarlyConfiguration`); `GreetingsCarryTheLearned` proves that this is the only
  way for a client that the multiplexer answers to be told other capabilities than those it has learned, or none.
  And the multiplexer learns them from any successful `initialize` response, also from one that is no answer to the
  `initialize` it forwarded, so that the first client is not told them (`ARefusedClient`).
  `FirstClientIsToldExactlyWhen` and `AllClientsGetTheSame` prove that the first client is told them exactly if the
  response bears the number of its request and that is still pending: the client is there and no response came before.
- A first `initialize` without `seq` sets the phase and then raises. After it no `initialize` ever reaches the
  adapter (`NoInitializeIsForwarded`), and those that come while the multiplexer waits stay in the buffer unless the
  adapter sends a successful `initialize` response unasked (`BufferedForGood`).
- In the extension's client, a number does not stay registered only as long as its call is under way. A call that
  finds its socket gone between registering and sending leaves its number behind for good (`ANumberLeftRegistered`):
  what is raised is no `OSError`. `RegisteredExactlyWhen` says which numbers are registered, and
  `OnlyCallsUnderWayExactlyWhen` that nothing else leaves any behind.
- The messages that the chunked reader dispatches depend on where the stream was cut. On a `terminated` event
  it closes its connection, but deals with the rest of the chunk first (`AMessageThatCanBeLost`).
  `CutsAgreeExactlyWhen` proves when all cuts into chunks of a given length agree: exactly if no message follows
  that event so closely that one chunk can hold the last bytes of both.
- The chunked reader's loop need not end when a header announces a negative length.
  `LoopEndsExactlyWhen` says exactly on which buffers it does; `AHeaderThatStaysInTheBuffer` is an input on
  which it does not. When the announced end lies before the start of the buffer, what is cut out depends on how
  much has arrived (`ACutThatMatters`); the theorems on cutting are about streams without such a header, and
  about all others, negative lengths included.
- The shortest-path search does not return a path exactly when there is one. A node at distance `u32::MAX` or
  more is never found (`AHiddenNode`), and an addition overflows when a node that leaves the heap before the
  goal has an edge that is too heavy. `Graph.ShortestPath` says exactly when, for every graph: the node is nearer
  than the goal, or as near and some cheapest walk to it has a lesser key than all those to the goal. The key of a
  walk is the list of those names behind its last edge of positive weight (all, if there is no such edge) that are
  greater than all names that follow them.
  If no edge of weight zero leaves a node as far as the goal, that is the order of names (`TooHeavyByNames`); else
  names do not decide (`AHeavyEdgeUnseen`, `AnOverflowBeforeTheGoal`). There is neither kind of failure if all the
  weights in the adjacency lists add up to less than `u32::MAX`.

## Model

| member | source | states |
|---|---|---|
| MuxTheorems.AnswersAreRouted | src/dap_mux/mux.py:206-236 | in every run, an adapter response queued to a client answers a request that this client sent and that was forwarded under the response's number; it carries the client's own number and is otherwise unchanged but for the stale-variable text |
| MuxTheorems.DeliveriesAreExplained | src/dap_mux/mux.py:192-304 | every message ever queued to a client is an answer to one of its own requests, a broadcast event or reverse request of the adapter unchanged, or a replay of what was current at that point |
| MuxTheorems.AnsweredOnce | src/dap_mux/mux.py:132-278 | no request gets two answers, from the adapter or the multiplexer, and no adapter response reaches two places, whatever the adapter repeats or invents |
| MuxTheorems.EveryRequestAccountedFor | src/dap_mux/mux.py:132-313 | of every request ever sent exactly one is true: answered by the multiplexer, answered by the adapter, pending upstream, buffered, or unanswered with its client gone |
| MuxTheorems.FirstResponseIsTheAnswer | src/dap_mux/mux.py:222-233 | while its client stays, a forwarded request is answered by the first response to its number sent after it was forwarded, and is pending exactly as long as there is none |
| MuxTheorems.OnlyConnectedClients | src/dap_mux/mux.py:222-230 | pending entries and cached initialize arguments name connected clients only, ids are never reused, and a buffered initialize belongs to the client that sent it |
| MuxTheorems.UpstreamFollowsRequests | src/dap_mux/mux.py:144-188 | the upstream log is a function of the clients' requests, whatever the adapter does: the ordinary ones, attach and launch until a configurationDone, the first configurationDone, and the first initialize unless a configurationDone came before it, in the order of arrival, renumbered 1 to n and otherwise unchanged |
| MuxTheorems.OthersAreAnsweredLocally | src/dap_mux/mux.py:165-182 | of all requests but initialize, the multiplexer itself has answered exactly those that do not go upstream |
| MuxTheorems.ClientsAreSentEverything | src/dap_mux/mux.py:280-291 | the broadcast events in a client's queue are exactly the unfiltered adapter events between its accept and its disconnect, adapter messages keep the adapter's order, and replays stand only as a block behind the greeting they belong to |
| MuxTheorems.LateJoinersAgree | src/dap_mux/mux.py:238-291 | the cached events are the fold of the adapter's log; what a client can conclude from its queue is nothing or the same, and the same once it has been greeted |
| MuxTheorems.GreetedStaysInAgreement | src/dap_mux/mux.py:257-263 | once a client's initialize is answered by the multiplexer, its view equals the fold of the adapter's log in every later state in which it is connected |
| MuxTheorems.HistoryGrows | src/dap_mux/mux.py:132-313 | no step takes back anything queued or sent, and the phase never decreases |
| MuxTheorems.SessionIsProtected | src/dap_mux/mux.py:144-188 | no message ever sent to the adapter is a disconnect, terminate or restart; of any two, not both are initialize, not both configurationDone, and no attach or launch follows a configurationDone |
| MuxTheorems.GreetingsAgree | src/dap_mux/mux.py:244-255 | every initialize answered locally succeeds under the client's own number and carries the capabilities cached at the time, which if there are any are those of a successful adapter response; when there are any, and whose, is stated by the rows on MuxCapabilities and FirstClient |
| MuxCapabilities.RunLearning | src/dap_mux/mux.py:169-216 | the phase is INITIALIZED or later if and only if the capabilities were learned or a configurationDone came before that, and never both; the cached capabilities are those in the response that was learned from |
| MuxCapabilities.GreetingsCarryTheLearned | src/dap_mux/mux.py:213-255 | an initialize answered locally carries the body of the response that was learned from if and only if no configurationDone came too early; else it has no body |
| MuxCapabilities.AnEarlyConfiguration | src/dap_mux/mux.py:169-175 | a run of six steps, stated, in which the first client is told capabilities and the second none, although nothing is ever buffered |
| FirstClient.AnInitializeIsForwarded | src/dap_mux/mux.py:144-188 | while the multiplexer waits for capabilities, exactly one initialize has been sent to the adapter |
| FirstClient.FirstClientIsToldExactlyWhen | src/dap_mux/mux.py:213-236 | the client whose initialize was forwarded has been passed the response that the capabilities were learned from if and only if that response bore the number of this request and the request was still pending |
| FirstClient.AllClientsGetTheSame | src/dap_mux/mux.py:213-255 | that client and all that the multiplexer has greeted have been told the same capabilities, those learned, under the same condition and no other |
| FirstClient.ARefusedClient | src/dap_mux/mux.py:213-233 | a run of six steps, stated, without configurationDone, in which the first client is told only a refusal and the second the capabilities |
| Departures.LeftForGood | src/dap_mux/mux.py:306-313 | a client that has left does not come back, and nothing is queued to it any more |
| LocalAnswers.InitializesAnsweredExactlyWhen | src/dap_mux/mux.py:150-220 | the multiplexer has answered an initialize itself if and only if it did not forward it, and it was past initializing when the request came or has learned the capabilities since, while the client was connected |
| Raising.NoInitializeIsForwarded | src/dap_mux/mux.py:159-184 | after a first initialize without a number, no initialize is sent to the adapter in whatever follows |
| Raising.BufferedForGood | src/dap_mux/mux.py:150-160 | and any that comes while the phase is INITIALIZING stays in the buffer unanswered, until the adapter sends a successful initialize response unasked |
| MuxTheorems.InitializeResponseAnswersTheBuffer | src/dap_mux/mux.py:213-220 | a successful initialize response in the initializing phase leaves the buffer empty and every buffered request of a connected client answered, with the capabilities of that response |
| MuxTheorems.StrandedExactlyWhenOvertaken | src/dap_mux/mux.py:150-175 | requests stay buffered outside the initializing phase if and only if some configurationDone was handled while an initialize was buffered |
| MuxTheorems.StrandedForever | src/dap_mux/mux.py:213-220 | such requests are never answered, whatever happens next |
| MuxTheorems.AnOvertakingRun | src/dap_mux/mux.py:169-175 | a run of five steps, stated, in which that happens |
| MuxTheorems.NextStrands | src/dap_mux/mux.py:150-220 | the one step that strands a buffer, and that no step changes a stranded one |
| ReverseRequests.ReverseRequestsAreTargeted | src/dap_mux/mux.py:293-304 | a known reverse request goes to exactly one connected client if any has sent initialize, else to none; runInTerminal goes to the earliest that opted in if any did |
| ReverseRequests.PickedIsTarget | src/dap_mux/compat.py:100-130 | the choice by dict order is the choice by time of the first initialize |
| Messages.FirstOptedIn | src/dap_mux/compat.py:116-121 | the search stops at the first client that opted in, having passed over none |
| Messages.RewriteStaleVariableError | src/dap_mux/compat.py:133-153 | the rewrite touches the error text only |
| Promises.TheSessionIsProtected | src/dap_mux/mux.py:144-188 | no message ever sent to the adapter has the command disconnect, terminate or restart; no two have initialize, no two configurationDone, and no attach or launch follows a configurationDone |
| Promises.RequestsReachTheAdapterExactlyWhen | src/dap_mux/mux.py:132-188 | the adapter is sent a request, renumbered and otherwise unchanged, if and only if its command and those of the earlier requests do not keep it back, told by the names of the commands |
| Promises.KeptBackIsAnswered | src/dap_mux/mux.py:165-182 | a request other than initialize is answered by the multiplexer with a success under its own number if and only if it is kept back |
| Promises.LocalAnswersSucceed | src/dap_mux/mux.py:238-278 | every answer that the multiplexer makes up is a response with success true, seq 0, the request's number and command, and the cached capabilities as body exactly if it answers an initialize and there are any |
| Promises.OnlyRequestsMatter | src/dap_mux/mux.py:132-136 | a client's message whose type is request is taken, any other is ignored |
| Promises.CapabilitiesByFields | src/dap_mux/mux.py:206-220 | a message of type response and command initialize with a true success and a number, in the initializing phase, and no other, sets the capabilities to its body and ends the phase |
| Promises.ResponseReachesItsClient | src/dap_mux/mux.py:192-236 | a response that bears the number of a pending request is queued to the client that sent it, with that client's number, the hint on a stale variable error and no other change |
| EventFolds.StopInMeans | src/dap_mux/mux.py:284-289 | the cached stop is m if and only if m is an event named stopped behind which none is named stopped, continued or terminated |
| EventFolds.InitializedInMeans | src/dap_mux/mux.py:284-285 | the cached handshake is m if and only if m is the last event named initialized |
| EventFolds.LateJoinersSeeWhatHolds | src/dap_mux/mux.py:238-291 | the stop and the handshake that hold by the names of the adapter's events are those cached, and those that hold by the messages in the queue of any greeted client |
| EventFolds.GreetingIsFollowedBy | src/dap_mux/mux.py:257-263 | behind a greeting stand the last initialized event of that moment and then the stop that held, each if there was one |
| Recipients.EveryEventIsQueued | src/dap_mux/mux.py:280-291 | an event of any name but debugpy's own three that the adapter sends while a client is connected is in that client's queue |
| Recipients.UnwantedEventsAreDropped | src/dap_mux/compat.py:18-58 | no event with one of these three names is in any queue |
| Recipients.OtherMessagesAreDropped | src/dap_mux/mux.py:192-204 | an adapter message that is no response, no event and neither of two requests changes nothing |
| Recipients.ReverseRequestsGoToOne | src/dap_mux/compat.py:100-130 | a runInTerminal or startDebugging request goes to one connected client if any has initialized, and to none else: for runInTerminal to the first that initialized among those whose latest arguments opt in, if any, else to the first that initialized |
| GreetingOrder.InitializesAreAnsweredInOrder | src/dap_mux/mux.py:150-220 | the multiplexer's answers to a client's initializes come in the order of these, buffered or not |
| Meanings.KindsByCommand | src/dap_mux/mux.py:138-182 | the kinds of requests are told apart by exactly these command names |
| Meanings.BroadcastsByName | src/dap_mux/compat.py:18-58 | an event is broadcast if and only if it has none of three names |
| Meanings.StaleErrorsByText | src/dap_mux/compat.py:133-153 | a stale variable error is a response without success to variables, scopes or evaluate whose text has "invalid" or "not found" in it in any case |
| Meanings.RewrittenText | src/dap_mux/compat.py:142-153 | such a text, and no other, gets the hint behind it |
| Meanings.ContainsFinds | src/dap_mux/compat.py:148 | one text is found in another if and only if it stands there at some position |
| MuxInvariant.RunInvariant | src/dap_mux/mux.py:111-313 | the invariant that ties maps, buffer, queues and fates together holds in every reachable state |
| MuxInvariant.NextKeeps | src/dap_mux/mux.py:111-313 | each of the four kinds of steps keeps it |
| MuxInvariant.DisconnectKeeps | src/dap_mux/mux.py:306-313 | after a disconnect no map names the client and its open requests are the ones discarded |
| MuxInvariant.HandleKeeps | src/dap_mux/mux.py:138-188 | whichever branch handles a client's request settles it once |
| MuxInvariant.DeliverAnswerKeeps | src/dap_mux/mux.py:222-233 | routing a resolved response settles its request and delivers it to its sender |
| MuxInvariant.DrainKeeps | src/dap_mux/mux.py:218-220 | answering the buffer settles each buffered request once, also when clients are gone |
| MuxQueues.RunQueues | src/dap_mux/mux.py:238-291 | in every reachable state the caches are the fold of the log and every queue is as its client's time of joining and leaving demands |
| MuxQueues.GreetKeepsQueues | src/dap_mux/mux.py:254-263 | a greeting and its replay bring a queue's view into agreement with the log |
| MuxQueues.BroadcastKeepsClients | src/dap_mux/mux.py:280-291 | a broadcast keeps every view in agreement, whether or not it was before |
| ClientQueue.ReplayView | src/dap_mux/mux.py:257-263 | what a client concludes after the replay is what the whole log says, whatever it had received |
| MuxForwarding.RunForwarding | src/dap_mux/mux.py:132-220 | in every reachable state the phase says exactly which of initialize and configurationDone have been sent, and the upstream log is the selection that follows |
| MuxForwarding.SelectedExactly | src/dap_mux/mux.py:144-188 | a request is selected if and only if the earlier requests let its command through |
| MuxForwarding.RequestRestAnswered | src/dap_mux/mux.py:165-182 | a request that is not forwarded is answered at once, and earlier answers stand |
| MuxProtocol.RunProtocol | src/dap_mux/mux.py:132-313 | command discipline, first responses, registration order and origin of the capabilities hold in every reachable state |
| MuxProtocol.NextDisciplined | src/dap_mux/mux.py:144-188 | each step keeps what may follow what upstream, and does not lower the phase |
| MuxProtocol.NextResponses | src/dap_mux/mux.py:206-233 | each step keeps that exactly the first response to a number is its answer |
| MuxProtocol.NextRegistration | src/dap_mux/mux.py:141-142 | each step keeps the dict of arguments in the order of the first initialize of each connected client, with the latest arguments |
| Mux.ModelIsReachable | src/dap_mux/mux.py:111-313 | the model that the fields agree with is a reachable state, so the theorems about those apply to the object |
| Mux.Multiplexer.AcceptClient | src/dap_mux/mux.py:111-126 | a new id, an empty queue, and the run of the model extended by the step Accept |
| Mux.Multiplexer.HandleClientMessage | src/dap_mux/mux.py:132-190 | the fields change as the model's step does, which extends the run; the client objects stay |
| Mux.Multiplexer.HandleUpstreamMessage | src/dap_mux/mux.py:192-204 | likewise for a message from the adapter |
| Mux.Multiplexer.HandleClientDisconnect | src/dap_mux/mux.py:306-313 | likewise for a disconnect; exactly that client is removed |
| Mux.Multiplexer.RouteRequest | src/dap_mux/mux.py:138-188 | the branches in the program's order come to the same as the model's |
| Mux.Multiplexer.RouteInitialize | src/dap_mux/mux.py:141-160 | forwarded, buffered or answered from the cache by phase, and registered in every case |
| Mux.Multiplexer.ForwardRequest | src/dap_mux/mux.py:184-188 | the number is allocated and the renumbered request is last in the upstream queue |
| Mux.Multiplexer.RouteResponseMessage | src/dap_mux/mux.py:206-233 | capabilities are learnt before the request is resolved, and both change the fields as the model does |
| Mux.Multiplexer.AnswerBuffered | src/dap_mux/mux.py:218-220 | the loop over the buffer and its clearing come to answering the oldest until none is left |
| Mux.Multiplexer.ResolveResponse | src/dap_mux/mux.py:222-233 | a known number is resolved once and answered at the client that asked; an unknown one changes nothing |
| Mux.Multiplexer.RespondWithCachedInitialize | src/dap_mux/mux.py:238-263 | the greeting and then the cached events are put on that client's queue |
| Mux.Multiplexer.RespondSyntheticSuccess | src/dap_mux/mux.py:265-278 | one success with the client's number is put on its queue |
| Mux.Multiplexer.SendToAll | src/dap_mux/mux.py:290-291 | every client's queue is longer by the event, once |
| Mux.Multiplexer.BroadcastEventMessage | src/dap_mux/mux.py:280-291 | the caches are updated and the event is queued to all |
| Mux.Multiplexer.RouteReverse | src/dap_mux/mux.py:293-304 | the request is queued to the chosen client only |
| SequenceMap.SeqMapConserves | src/dap_mux/seq.py:58-119 | after any calls a number is pending if and only if it was allocated and not taken out since, with the entry it was allocated for; numbers allocated are those pending plus those removed |
| SequenceMap.NothingIsLost | src/dap_mux/seq.py:58-119 | the next number less one is the pending entries plus the sum of all removals |
| SequenceMap.PendingWhatIsNotTakenOut | src/dap_mux/seq.py:76-119 | pending means in the allocated range and never resolved, cleaned up or expired |
| SequenceMap.SeqMap.Allocate | src/dap_mux/seq.py:58-74 | returns the next number and adds exactly its entry |
| SequenceMap.SeqMap.Resolve | src/dap_mux/seq.py:76-84 | returns and removes the entry if there is one, else changes nothing |
| SequenceMap.SeqMap.Cleanup | src/dap_mux/seq.py:86-99 | removes exactly the client's entries and returns how many |
| SequenceMap.SeqMap.Expire | src/dap_mux/seq.py:101-119 | removes exactly the entries older than the cutoff and returns how many |
| Connections.SendQueue.Send | src/dap_mux/client.py:82-84 | the message is last, after everything sent before |
| Connections.SendQueue.WriteAll | src/dap_mux/client.py:102-107 | what is written is what was queued, in that order, and nothing is lost |
| Connections.SendQueue.WriteNext | src/dap_mux/upstream.py:127-132 | the oldest message is written next |
| Framing.DecimalRoundTrip | src/dap_mux/protocol.py:125-142 | the length written in decimal is read back |
| Framing.EncodeReadsBack | src/dap_mux/protocol.py:116-176 | an encoded message followed by any bytes is read back, and just those bytes remain |
| Framing.PrefixCode | src/dap_mux/protocol.py:116-126 | no encoded message is a proper prefix of another, and encodings are distinct |
| Framing.StrictPrefixIsIncomplete | src/dap_mux/protocol.py:191-206 | on any strict prefix of an encoded message reading fails for want of bytes |
| Framing.ReadExtends | src/dap_mux/protocol.py:163-176 | once a message has been read or a stream has been found malformed, bytes that follow make no difference |
| Framing.FindSeparator | src/dap_mux/protocol.py:194-200 | the first separator, or none |
| Framing.ClientNamesDiffer | src/dap_mux/mux.py:117 | ids made from different counts differ |
| WireFormat.EncodingByText | src/dap_mux/protocol.py:116-126 | every encoding is the characters "Content-Length: ", the length of the body in decimal, two line ends and the body |
| WireFormat.HeaderByText | src/dap_mux/protocol.py:129-142 | the characters "Content-Length: ", a number in decimal and two line ends decode to that number |
| WireFormat.LooseHeader | src/dap_mux/protocol.py:139-142 | so do they without the space or with more around the number, with a sign, and with other lines behind |
| WireFormat.OtherLinesAreSkipped | src/dap_mux/protocol.py:139-142 | a line before that does not start with "Content-Length:" makes no difference |
| WireFormat.FirstLineDecodes | src/dap_mux/protocol.py:139-142 | a first line that starts so decides the length by what follows, or makes the header malformed if that is no number |
| WireFormat.DecimalByPlace | src/dap_mux/protocol.py:125 | a number is written with its decimal digits, units last, without leading zeros |
| WireFormat.ReadsExactlyWhen | src/dap_mux/protocol.py:163-206 | a message is read if and only if the stream starts with a header up to the first separator that announces the length of the body behind it, which parses to that message; the rest is left |
| WireFormat.ClosedExactlyWhen | src/dap_mux/protocol.py:191-206 | reading fails for want of bytes if and only if there is no separator, or the header announces more bytes than follow it |
| WireFormat.ClientNameByText | src/dap_mux/mux.py:117 | a client's name is the characters "client-" and its number in decimal |
| Decoders.StreamReader.ReadHeader | src/dap_mux/protocol.py:191-200 | byte by byte, it takes the stream up to and including the first separator, or all of it if there is none |
| Decoders.StreamReader.Read | src/dap_mux/protocol.py:163-176 | reads what the specification reads and leaves what it leaves |
| Decoders.StreamReader.ReadMessages | src/dap_mux/client.py:90-97 | the loop returns the messages that can be read one after the other before reading fails |
| Decoders.ReadAllEncoded | src/dap_mux/protocol.py:116-176 | the stream reader reads back any list of encoded messages |
| Chunks.ChunkedReader.Turn | src/dap_mux/ipython_ext.py:160-177 | one turn for every header, negative lengths and Python's slices included: the thread dies, the loop waits, or the buffer is cut as specified |
| Chunks.ChunkedReader.Receive | src/dap_mux/ipython_ext.py:154-187 | dispatches what scanning the buffer with the chunk finds, and goes on with the rest unless the thread died or a terminated event closed the connection |
| Chunks.ChunkedReader.ReadLoop | src/dap_mux/ipython_ext.py:146-187 | over any chunks, dispatches what feeding them one by one finds, and is still running if and only if that leaves it waiting |
| Chunks.TurnShrinks | src/dap_mux/ipython_ext.py:172-177 | a turn leaves the buffer as it is if the announced end is its start or farther before it than it is long, and shortens it in all other cases |
| Chunks.LoopEndsExactlyWhen | src/dap_mux/ipython_ext.py:160-182 | the inner loop ends after finitely many turns if and only if none of its turns meets such a buffer |
| Turns.SlicesByPosition | src/dap_mux/ipython_ext.py:176-177 | the slices are Python's: a negative index counts from the end and is clipped at the start |
| Turns.HeadersWithoutBody | src/dap_mux/ipython_ext.py:162-170 | a malformed header ends the thread, one without a length is skipped |
| Turns.BodyIsAwaited | src/dap_mux/ipython_ext.py:172-174 | a body of which bytes are missing is waited for |
| Turns.BodyIsDispatched | src/dap_mux/ipython_ext.py:176-187 | one that has arrived is dispatched if it is a message and skipped if not, and the loop goes on with just the bytes behind it |
| Turns.HeadersWithNegativeLength | src/dap_mux/ipython_ext.py:172-177 | after a negative length the loop goes on from the announced end, counted by Python's rules, and does not end if that is the start of the buffer |
| Turns.TerminatedStopsTheReader | src/dap_mux/ipython_ext.py:149-219 | no chunk is read after one with an event named terminated |
| Cuts.ScanSplits | src/dap_mux/ipython_ext.py:154-187 | scanning a piece and going on with the next is scanning both joined |
| Cuts.ReadsAsOne | src/dap_mux/ipython_ext.py:148-187 | the reader ends, for any cut, as if it had scanned the bytes of the chunks that it reads at once |
| Cuts.ChunksReadIsFirst | src/dap_mux/ipython_ext.py:149-187 | it reads no chunk after the first with which a terminated event is found |
| Cuts.BytesReadPastEnd | src/dap_mux/ipython_ext.py:149-187 | of a stream with such an event it reads up to the end of that and less than one chunk more |
| Cuts.MessagesEndOneByOne | src/dap_mux/ipython_ext.py:160-187 | one more byte never completes two messages |
| Cuts.DispatchedUnlessLost | src/dap_mux/ipython_ext.py:148-219 | where all cuts agree, exactly the messages up to the terminated event are dispatched, or all if there is none |
| Cuts.CutsAgreeExactlyWhen | src/dap_mux/ipython_ext.py:148-219 | all cuts into chunks of at most a given length give the same messages if and only if no message after the first terminated event can end in a chunk with it |
| Cuts.AnyCutsAgreeExactlyWhen | src/dap_mux/ipython_ext.py:148-219 | with chunks as long as the stream: if and only if no message follows that event |
| Readers.ReadersAgree | src/dap_mux/ipython_ext.py:160-187 | for any cut the chunked reader finds what the stream reader reads of the bytes the former takes, and continues from where that fails; these are all bytes unless the session ends |
| Readers.RoundTrip | src/dap_mux/protocol.py:116-176 | the stream reader returns exactly the list that was encoded; the chunked reader does too for any cut if no message ends the session, and else returns a beginning of it that includes the one that does |
| Readers.AMessageThatCanBeLost | src/dap_mux/ipython_ext.py:186-219 | a message behind a terminated event is dispatched if they come in one chunk and not if they come in two |
| Readers.AHeaderThatStaysInTheBuffer | src/dap_mux/ipython_ext.py:160-182 | after a header that announces -22 bytes at the start of the buffer the inner loop never ends, whatever follows |
| Readers.ACutThatMatters | src/dap_mux/ipython_ext.py:172-177 | a header that announces -23 bytes and a text behind it are a message in one chunk and none in two |
| DapClient.CallersGetTheirOwnResponses | src/dap_mux/ipython_ext.py:102-144 | under any interleaving a call returns nothing or a response to its own number, no other response is ever on its queue, and numbers on the wire increase |
| DapClient.RunOk | src/dap_mux/ipython_ext.py:84-197 | the invariant of calls, registrations, reader and wire holds after every interleaving, disconnects included |
| DapClient.RegisteredExactlyWhen | src/dap_mux/ipython_ext.py:113-144 | a number is registered if and only if its call is under way or has ever found its socket gone when it was to send |
| DapClient.OnlyCallsUnderWayExactlyWhen | src/dap_mux/ipython_ext.py:109-135 | only calls under way are registered if and only if no call has found its socket gone |
| DapClient.ANumberLeftRegistered | src/dap_mux/ipython_ext.py:109-135 | registering, disconnecting and trying to send, in this order, leave number 1 registered and no call under way |
| Deliveries.NothingDeliveredIsLost | src/dap_mux/ipython_ext.py:136-197 | after any interleaving the messages that the reader has put for a call are what the call has taken and then what is on its queue, in the order in which they were put |
| Deliveries.WaitingCallsAreServed | src/dap_mux/ipython_ext.py:136-141 | a waiting call can take a response if and only if one was put for it, can time out if and only if none was, and takes the first |
| Deliveries.ResultsAreDelivered | src/dap_mux/ipython_ext.py:136-144 | what a call returns is the first message put for it |
| Deliveries.LookUpFindsTheCall | src/dap_mux/ipython_ext.py:189-195 | a response that bears the number of a registered call is held for that call |
| Deliveries.HistoriesAreOfActions | src/dap_mux/ipython_ext.py:113-129 | the numbers on the wire are those of the requests sent, in that order |
| Deliveries.AResponseInTime | src/dap_mux/ipython_ext.py:102-197 | a run of six actions, stated, in which a call returns its response |
| DapClient.ActKeepsCalls | src/dap_mux/ipython_ext.py:136-144 | no section of any thread puts a response on the queue of a call that did not ask for it |
| DapClient.DapConnection.Register | src/dap_mux/ipython_ext.py:113-127 | a new number and a new queue, registered together |
| DapClient.DapConnection.Transmit | src/dap_mux/ipython_ext.py:128-129 | raises if and only if the connection is closed, and then undoes nothing |
| DapClient.DapConnection.Close | src/dap_mux/ipython_ext.py:84-92 | only the socket is dropped; registrations and queues stay |
| DapClient.DapConnection.Forget | src/dap_mux/ipython_ext.py:130-144 | only the call's own registration is dropped |
| DapClient.DapConnection.Find | src/dap_mux/ipython_ext.py:189-195 | the queue registered under the response's number, if any |
| DapClient.DapConnection.Deliver | src/dap_mux/ipython_ext.py:196-197 | the response is behind what was on the queue found, also if its call has left meanwhile |
| DapClient.DapConnection.Await | src/dap_mux/ipython_ext.py:137-141 | takes the oldest response off the call's queue, or none if there is none |
| EndToEnd.CallsReturnTheirAnswer | src/dap_mux/ipython_ext.py:102-197 | a call that returns a response returns the answer to its own request: the first response the adapter gave to it after it was forwarded, with nothing but number and stale-error text changed, or the multiplexer's own answer; through the multiplexer, the encoding, any cut into chunks and a reader that may have stopped |
| EndToEnd.OneAnswerPerCall | src/dap_mux/mux.py:206-233 | no second response with a call's number is ever queued for its connection |
| EndToEnd.FoundAreFirst | src/dap_mux/ipython_ext.py:148-187 | from the first bytes of encoded messages, however cut, the reader dispatches the first of these messages |
| EndToEnd.AnswersReachTheirCall | src/dap_mux/mux.py:232-233 | an adapter response routed to a connection is for the one call that sent the request it answers: when its reader looks it up and puts it, it is last on that call's queue, unless the call is done, when it is dropped |
| EndToEnd.RequestsAreTheirOwn | src/dap_mux/ipython_ext.py:114-129 | no two requests of a connection share a number, so that call is the only one meant |
| ShortestPath.Graph.ShortestPath | demos/rust/src/main.rs:29-70 | a path found is a walk of that cost and no walk is cheaper; none found means that every walk costs `u32::MAX` or more; an addition overflows if and only if a node before the goal, in order of distance and least key, has an edge that is too heavy; with small weights a path is found if and only if there is one; terminates |
| ShortestPath.Graph.Relax | demos/rust/src/main.rs:57-66 | the loop relaxes the edges of the node in order, or stops at the first sum that does not fit |
| ShortestPath.RelaxFirstKeeps | demos/rust/src/main.rs:57-66 | relaxing any number of a node's edges keeps the search invariant and settles nothing, or some edge of the node and the weights of the graph are too large |
| ShortestPath.Graph.Reconstruct | demos/rust/src/main.rs:42-51 | the predecessors reversed are a walk from start to goal that costs the goal's distance; terminates |
| ShortestPath.ReachedIsOk | demos/rust/src/main.rs:38-67 | in every state of a search, settled nodes are settled once and no farther than unsettled ones, predecessors are settled and linked by an edge of the right weight, the heap holds the distance of each unsettled node, all edges of settled nodes are relaxed, and the nodes as far as the last one came in the order of their least keys |
| ShortestPath.FoundIsShortest | demos/rust/src/main.rs:38-52 | when the goal's entry is first it holds the cost of the cheapest walk to the goal, and the predecessors lead back |
| ShortestPath.FoundAllFit | demos/rust/src/main.rs:57-59 | then no node before the goal has an edge that is too heavy |
| Entries.BelowMeans | demos/rust/src/main.rs:36-41 | one name comes before another if and only if it is a proper prefix of it or has the lesser character where they first differ |
| Keys.ExtendMeans | demos/rust/src/main.rs:38-67 | the key of a walk that goes on for nothing keeps just the names greater than the new one, in descending order |
| Levels.NextKeyIsLeast | demos/rust/src/main.rs:38-67 | no walk to an unsettled node as far as the first entry has a lesser key than the one that entry's node is given, and none to another node the same |
| Levels.NextHasKey | demos/rust/src/main.rs:38-67 | the first entry's node is at its distance, and a cheapest walk to it has that key |
| Levels.NextKeepsLevel | demos/rust/src/main.rs:38-67 | settling it keeps that each settled node of the level has the least key of its walks, none greater than the last one's |
| Levels.FirstPrecedes | demos/rust/src/main.rs:38-41 | a node that leaves the heap before the goal comes before it by distance and key, which the graph alone decides |
| Levels.NonePrecedes | demos/rust/src/main.rs:38-41 | when the goal leaves the heap, no node as far that is unsettled comes before it |
| Levels.TooHeavyByNames | demos/rust/src/main.rs:38-59 | where no edge of weight zero leaves nodes as far as the goal, the overflow condition is the one by names |
| Levels.TooHeavyBounds | demos/rust/src/main.rs:38-59 | in every graph, an edge too heavy at a node nearer than the goal is enough, and one at a node no farther is necessary |
| Keys.ExtendKeepsOrder | demos/rust/src/main.rs:38-67 | of two walks to the same node the one with the lesser key keeps it when both go on alike |
| Keys.WalkHasKey | demos/rust/src/main.rs:38-67 | every walk has a key |
| ShortestPath.NotFoundMeansFar | demos/rust/src/main.rs:66-69 | when the heap is empty without the goal, every walk to the goal costs `u32::MAX` or more, and with small weights there is none |
| ShortestPath.OverflowMeansTooHeavy | demos/rust/src/main.rs:58-59 | an addition that does not fit continues a cheapest walk to a node no farther than the goal, and needs that much weight in the graph |
| ShortestPath.OverflowComesFirst | demos/rust/src/main.rs:58-59 | and that node comes before the goal, in order of distance and least key |
| Searching.WalksAreLonger | demos/rust/src/main.rs:54-66 | any walk costs at least the distance of its end if that is settled, else at least the nearest unsettled distance |
| ShortestPath.SettledBound | demos/rust/src/main.rs:38-67 | no search settles more nodes than the graph has |
| Walks.BudgetInTotal | demos/rust/src/main.rs:58-59 | the weights spent on settled nodes are within the sum of all weights |
| Searching.DistanceIsWalk | demos/rust/src/main.rs:42-51 | the chain of predecessors of any node reached is a walk that costs its distance |
| Ties.AHeavyEdgeUnseen | demos/rust/src/main.rs:57-66 | a graph with an edge of weight zero in which names would have an overflow come first, but keys do not, and the goal is found |
| Ties.AnOverflowBeforeTheGoal | demos/rust/src/main.rs:57-66 | one in which names would have the goal come first, but keys do not, and an addition overflows |
| ShortestPath.AHiddenNode | demos/rust/src/main.rs:59-69 | a reachable node at distance `u32::MAX` that the search ends without |
| ShortestPath.Graph.AddEdge | demos/rust/src/main.rs:24-27 | the edge is appended to both lists; the graph stays undirected and its total weight grows by twice the edge's |
| Walks.DistancesAreSymmetric | demos/rust/src/main.rs:24-27 | in a graph built so, distances and reachability are the same in both directions |
| Walks.WalkBack | demos/rust/src/main.rs:24-27 | every walk can be walked back at the same cost |

## Left out

- Sockets, task creation and cancellation, connection retries, `Multiplexer.close` and the closing of clients. Only the queues and the handler steps are modelled; messages come from connected clients and a client disconnects once.
- `src/dap_mux/adapter.py`, `src/dap_mux/cli.py`, logging, the IPython magics, event printing and the stop-location thread.
- JSON syntax and UTF-8: a codec with a `dump` and a `parse` of which the round trips assume `parse(dump(m)) == Some(m)`. Bodies that do not parse are modelled; a body that is JSON but not an object, or not UTF-8, is not.
- JSON numbers other than integers. `True` and `False` as dict keys equal 1 and 0, as in Python.
- Messages on which a handler of the multiplexer raises, but for the `initialize` of `Raising.dfy`: a request without `seq`; a list or object where a dict key or set element is looked up; a stale-variable candidate whose error text is not a string; a `runInTerminal` request while the search for its target meets initialize arguments that are not an object. A run is legal up to such a message.
- Lower-casing of the error text is that of ASCII letters.
- Client ids are the counts from which the program makes their names; `ClientNamesDiffer` justifies this.
- A dict whose order matters is a map and the sequence of its keys in insertion order.
- `ClientConnection` and `UpstreamConnection` have the same queue and drain; one class `SendQueue` stands for both. Messages still queued when a connection is lost are lost with it.
- The histories of the model and the ghost fields of the classes are not in the program.
- That a client keeps seeing the true state of the debuggee: the theorems on late joiners are about the fold of the adapter's events.
- That the adapter answers. A failed `initialize` response leaves the phase INITIALIZING and the buffer waiting.
- Clients' answers to reverse requests: the multiplexer ignores them, as it does all client messages that are not requests.
- Uniqueness of `seq` on messages to clients: local answers all use 0.
- SequenceMap.SeqMap.Expire: takes the reading of the clock as an argument; the multiplexer never calls it.
- Chunks.ChunkedReader.Receive: requires that the inner loop ends, which `LoopEndsExactlyWhen` characterises. A chunk that is empty ends the reading in the program; the theorems on cuts have no empty chunks.
- Cuts.CutsAgreeExactlyWhen: about streams on which no header announces an end before the start of the buffer, and about texts none of which is empty, as in JSON.
- Messages whose handling raises in the chunked reader's thread: a response whose number is a list or object, an event whose body is missing the object form that its handler expects, a message that is not an object. They end the thread as `Died` does.
- `int` reads surrounding white space, a sign and underscores between digits; other digits than ASCII cannot occur in a header.
- DapClient.DapConnection.Await: the ten seconds are not modelled; a timeout may happen whenever the queue is empty. The model starts with a connection; connecting again after a disconnect, requests whose arguments cannot be encoded, the sending of the bytes and what is done with events other than terminated are left out.
- ShortestPath.Graph.ShortestPath: an overflow is the panic of a build with overflow checks; without them the sum would wrap. Names are compared by code points, which is the order of their UTF-8 bytes.
- `demos/fibonacci.py`, the demo's `main`, configuration files and the test fakes.
