# Silent DevOps: a verified model of the control plane

Silent DevOps is a control plane: a validator with an SQL store queues messages to agents over one
stream each, and relays SSH byte streams between clients and agents. This project models the parts of it
that keep state and race with each other, and proves what they promise over whole runs.

How the model is built:

- SQL tables are maps with their UNIQUE and FOREIGN KEY constraints; a guarded `UPDATE` is a guarded map
  update, a transaction is one step. Go channels are bounded sequences; a send on a closed channel or a
  second close is a panic. Random ids, tokens, serials and hashes are parameters (`Draw`, `Config`).
- Where calls race, each component is a transition system (`State`, `Step`, `Apply`, `Run`): accesses under
  different locks, statements and channel operations are separate steps, and the theorems range over all
  interleavings. Three things are joined, because nobody else can see between their parts: a transaction is
  one step, the agent's duplicate check is one with the execution it starts (the reply is recorded by a
  later step), and a wait that is given up is one with the removal that follows it. Fields such as `issued`,
  `placed`, `uses` or `grants` record history for the proofs only.
- The objects the repository updates in place are classes. Where there is a transition system each method
  is proved to take exactly its steps, so what is proved about runs holds of the objects; the three copying
  loops of a tunnel are tied to the interleaved steps by `ByteStream.LoopsInterleaved`.

Modules: `JobTables`, `AgentHandler`, `JobProtocol`, `JobTheorems`, `Fleet` (jobs); `AgentRegistry`;
`SshSessions`, `TunnelRelay`, `ByteStream`, `SshBridge`, `SshService` (SSH); `Text`, `AuthorizedKeys`;
`Identity`; `RateLimit`, `Backoffs`, `CapturedOutput`; `Protocol` and `Common` hold what they share.

What the code does differently from what one might expect, each with the exact condition:

- `Backoff.Next` doubles even at its cap, so its closed form holds for every call exactly when the cap is
  below 2^62; at a cap of exactly 2^62 it overflows while `Reconnect` does not (`Backoffs.LoopsPartAtTwo62`).
- The first terminal write of a job row can lose to one statement only, the unguarded update of a submission
  that found no session, and only when a cancel named an id its submission had not returned yet
  (`JobTheorems.ClosedRowChangesExactly`, `JobTheorems.CancelOvertakesDispatch`).
- When the context of a submission ends after its commit, the update that should mark the row uses the same
  ended context and is refused: the row stays DISPATCHED for good, and its job never runs
  (`Fleet.Validator.Submit`, `JobTheorems.StrandedStaysDispatched`).
- A queue can be closed twice: `Disconnect` panics exactly when the Release of the current session has closed
  its queue, and `Release` panics exactly when, before it reaches the queue, a `Disconnect` hit its session
  while attached and open (`AgentRegistry.DisconnectPanicsExactly`, `AgentRegistry.ReleasePanicsExactly`).
- Dispatch sends outside the lock: the send panics exactly when the session it picked was hit by a
  `Disconnect`, or its Release closed its queue, in between (`AgentRegistry.SendPanicsExactly`,
  `AgentRegistry.SendAfterDisconnectPanics`).
- Generations repeat every 2^64 sessions (`AgentRegistry.GenerationsRepeatExactly`).
- `CancelJob` returns CANCELLED also for rows it does not change, such as UNKNOWN_RESULT ones
  (`Fleet.Validator.CancelJob`).
- A token can stay behind an EXPIRED row when a `Create` runs between the two halves of `Reconcile`
  (`SshSessions.TokenLeftBehind`, `SshSessions.ReconcileFinishExactly`). That takes a lifetime below a
  millisecond or a clock that goes back: PrepareSsh asks for whole seconds, and such sessions outlive every
  `Reconcile` that began no later (`SshSessions.LongLivedOutlives`). `Create` fails while the least free port is still held by an
  expired row that no `Reconcile` has released (`SshSessions.CreateSucceedsExactly`).
- A PrepareSsh that fails frees its port exactly when its context is still alive. When the context has ended,
  the Close that should clean up deletes the token and its update is refused: the session can never become
  READY, and keeps its port until a Close of it, or a `Reconcile` at or after its expiry, is carried out
  (`SshService.FailureFreesExactly`, `SshService.StrandedSession`).
- A relay record can be handed two clients, and then `done` can be closed twice (`TunnelRelay.DoneClosedTwice`):
  the end of a splice panics exactly when another splice of its record has ended
  (`TunnelRelay.DonePanicsExactly`). It cannot happen when nothing drops a registration between a call's
  registration and its lookup (`SshBridge.UndroppedClosesOnce`), which is exactly when the call finds its
  own record again (`SshBridge.FindsOwnExactly`); nor, whatever the callers do, when no two streams present
  the record's token (`SshBridge.PresentationsBoundSplices`, `SshBridge.PresentedOnceClosesOnce`).
- The marker of an authorized_keys line is misread exactly when the key blob starts like a marker and is not
  that marker itself (`AuthorizedKeys.MarkerReadsBackExactly`). The line reader drops a trailing carriage return, so a rewrite
  changes a line that is not the store's exactly when it ends in one (`AuthorizedKeys.ForeignLinesKept`,
  `AuthorizedKeys.ReturnIsLost`).
- `Reconnect` panics, however long it runs, exactly when a doubling below its cap overflows or the cap is
  2^63 - 1 (`Backoffs.ReconnectNeverPanicsExactly`).
- An empty write to a full output buffer marks it truncated (`CapturedOutput.LimitedBuffer.Write`).
- Cleanup jobs pass every check of the validator and are always rejected by the agent (`JobTables.AdmittedRuns`).
- Expiry is checked when a renewal starts, not when it finishes (`Identity.LateRenewalRevives`).

## Model

| member | source | states |
|---|---|---|
| JobTheorems.AtMostOnce | internal/agent/handler.go:21-51 | in every run of submits, cancels, repeated deliveries, expiries, reconnects with a fresh handler and validator restarts, two executions never share a job id, nor an (agent, idempotency key) pair |
| JobTheorems.FirstDeliveryRuns | internal/agent/handler.go:26-46 | no job is lost to the duplicate check either: a delivered job runs if and only if it is in time and has not run before |
| JobTheorems.DeliverIsHandle | internal/runtime/agent.go:70-91 | a delivery in the protocol is exactly one Handle call on that connection's handler, and no other handler notices |
| JobTheorems.RecordedBeforeSent | internal/server/jobs.go:58-82 | every job message in any queue, or ever delivered, is the job of a committed submission, has a row and audit row with its id, agent, dispatch id, attempt, deadline and key, sits in a session of its own agent, and is nowhere else |
| JobTheorems.ResultsOnlyFromTheAgent | internal/registry/messages.go:41-54 | a result is accepted only from the agent the job was submitted to, with its dispatch id and attempt |
| JobTheorems.FirstTerminalWriteWins | internal/registry/messages.go:45-54 | with agents reporting what they ran and cancels naming returned ids, a row that has left DISPATCHED and RUNNING never changes again, under any interleaving |
| JobTheorems.ClosedRowChangesExactly | internal/server/unsafe.go:75-78 | in any state at all, a closed row is changed by a step if and only if that step is the unguarded update of its own submission, which found no session |
| JobTheorems.CancelOvertakesDispatch | internal/server/jobs.go:78-81 | a run in which a cancel of a not yet returned id is overwritten with UNKNOWN_RESULT, because the agent disconnects before its submission looks for a session |
| JobTheorems.StrandedStaysDispatched | internal/server/jobs.go:78-81 | under the same discipline, when the context of a submission ends, or the validator restarts, before the job is sent, the job never runs and its row stays DISPATCHED and unchanged over every continuation |
| JobTheorems.ReportedRowsRan | internal/maintenance/dispatcher.go:17-94 | a row that says succeeded, failed, timed out or rejected tells exactly how the one execution of its job ended on its agent, and holds exactly the output and truncation flag its run gave |
| JobTheorems.OutputIsTheRuns | internal/registry/messages.go:45-54 | no row, whatever its state, holds any output but that of its job's one execution |
| JobTheorems.ReplyIsRecordedExactly | internal/registry/messages.go:45-54 | an agent's reply is recorded with its state, output and truncation flag if and only if the row of its job is still open; no other row changes |
| JobTheorems.JobsComeFromRequests | internal/server/unsafe.go:17-45 | in every run each row comes from one request that was allowed to make it: a command from an admin who confirmed it, a reboot of its own target and a cleanup confirmed and in time; job, row and audit row say what the request said |
| JobTheorems.ShellRunsWhatAdminsConfirmed | internal/maintenance/dispatcher.go:27-32 | an agent hands to its shell only a command that an admin confirmed for that agent, word by word |
| JobTheorems.CancelsGoToTheAgent | internal/server/cancel.go:17-31 | every cancel message in any queue names a recorded job and the dispatch of its row, and sits in a session of that job's agent |
| JobTheorems.RestartLosesCalls | internal/server/jobs.go:64-81 | a restart keeps the tables, leaves no call under way and loses exactly the submissions that had neither sent nor marked their job |
| JobProtocol.ProtocolInvariant | internal/server/jobs.go:64-82 | rows, audit rows, submission phases, queues and executions stay consistent in every reachable system |
| Fleet.Validator.Submit | internal/server/jobs.go:35-83 | an uninterrupted submission takes exactly the steps of the protocol; it succeeds if and only if the request is legitimate, inserted, routed and sent, and its job and rows then carry the request; each refusal has exactly its cause; a recorded row is UNKNOWN_RESULT if and only if no session was found while the context lived, and DISPATCHED if and only if the job was sent or the context had ended |
| Fleet.Validator.SendRecorded | internal/server/jobs.go:78-82 | the row is marked if and only if the dispatch failed on a live context, and the registry changes if and only if the job was sent |
| Fleet.Validator.Admit | internal/server/unsafe.go:17-45 | the checks of Exec, Reboot, RunCleanup and both submit paths pass exactly the legitimate requests; anything else is a bad argument, except a confirmed command by someone who is no admin, which is denied |
| Fleet.Validator.CancelJob | internal/server/cancel.go:11-40 | an uninterrupted cancel takes exactly the protocol's steps; it returns the state of a row that has succeeded, failed, timed out or been cancelled and CANCELLED otherwise, and stores CANCELLED exactly for a dispatched or running row |
| Fleet.Validator.CancelOpen | internal/server/cancel.go:30-37 | the cancel message is sent before the guarded update, and without a send there is no update |
| Fleet.Validator.FetchOutput | internal/server/output.go:9-35 | the client gets the output of a job that is stored, done and delivered whole, or an error; for a job its agent reported, that is exactly what the one run of that job captured |
| JobTables.JobStore.Insert | internal/server/jobs.go:64-77 | job row and audit row are both inserted, or neither, exactly when an id, a dispatch id or an (agent, key) pair is taken or the user or agent is unknown |
| JobTables.JobStore.RecordResult | internal/registry/messages.go:45-54 | the guarded result update: accepted if and only if agent, dispatch id, attempt and an open state match; then the row holds state, output and truncation flag of the result, and no other row changes |
| JobTables.JobStore.MarkCancelled | internal/server/cancel.go:34-34 | the guarded cancel update leaves closed rows alone |
| JobTables.JobStore.MarkUnknown | internal/server/unsafe.go:76-76 | the unguarded update after a failed dispatch, refused on an ended context |
| JobTables.RefusedExactly | internal/server/unsafe.go:17-45 | the checks, in the order the calls make them, let through exactly the legitimate requests, stated field by field; permission is denied if and only if someone who is no admin sends a confirmed command |
| JobTables.InsertedIsCarried | internal/server/jobs.go:58-72 | the job, its row and its audit row carry what the request asked for, with the deadline its timeout in seconds after the time of the request |
| JobTables.AdmittedRuns | internal/server/unsafe.go:17-34 | the command line an agent makes of an admitted job, operation by operation; admitted cleanups have none; the deadline is the timeout in seconds later, at most an hour |
| AgentHandler.Handler.Handle | internal/agent/handler.go:21-51 | a message is dispatched and answered if and only if it is a complete, timely job for this agent whose id and dispatch id, joined by a NUL, are new |
| AgentHandler.KeyIsInjective | internal/agent/handler.go:39-39 | the duplicate key determines job id and dispatch id when ids hold no NUL |
| Protocol.Dispatch | internal/maintenance/dispatcher.go:17-94 | the command line the runner is given for each operation, or none; the result carries exactly what the run gave, and each state and error code occurs exactly in its case |
| Protocol.DispatchCloses | internal/maintenance/dispatcher.go:17-94 | every result is terminal and echoes its job, carries exactly what the run gave if the runner was reached and nothing otherwise; each outcome and each error has exactly one cause |
| AgentRegistry.Registry.Acquire | internal/registry/registry.go:56-81 | a session is granted if and only if identity, version range, capabilities and the online flag allow it, with the next generation; each refusal has exactly its cause |
| AgentRegistry.AcquireExactly | internal/registry/registry.go:56-81 | then, and only then, the agent is online with a new, open, empty session that messages are routed to, and nothing else changes |
| AgentRegistry.Registry.Heartbeat | internal/registry/registry.go:119-125 | a heartbeat sets the time of the entry of its own agent and generation, only while that is online, and touches no other |
| AgentRegistry.Registry.Snapshot | internal/registry/registry.go:157-165 | tells whether the agent is online and when it was last seen |
| AgentRegistry.SeenExactly | internal/registry/registry.go:66-144 | in every run the registry remembers for each agent exactly the last time it was connected, heard from, released or disconnected |
| AgentRegistry.ExpiresExactlyTheSilent | internal/registry/registry.go:166-174 | so in every run an Expire takes an online agent offline if and only if that was longer ago than the timeout |
| AgentRegistry.Registry.Release | internal/registry/registry.go:116-133 | Release takes its two steps, entry and queue, once per session; it panics exactly when the queue was closed before |
| AgentRegistry.Registry.Disconnect | internal/registry/registry.go:134-144 | Disconnect takes the entry offline and closes its queue, or panics when that queue is closed |
| AgentRegistry.Registry.Expire | internal/registry/registry.go:166-174 | exactly the online entries not seen within the timeout go offline |
| AgentRegistry.ExpireSlots | internal/registry/registry.go:169-173 | the loop over entries gives the same result in whatever order the map yields them |
| AgentRegistry.Registry.Dispatch | internal/registry/registry.go:145-155 | an uninterrupted dispatch to an online agent appends the message to that agent's queue and never panics in a reachable state |
| AgentRegistry.Registry.Send | internal/registry/registry.go:106-113 | a send to a closed queue panics, otherwise the message is the last of the queue |
| AgentRegistry.Registry.Receive | internal/registry/service.go:94-102 | the sender takes the oldest message |
| AgentRegistry.RegistryInvariant | internal/registry/registry.go:66-81 | in every run an online entry has an attached, open session of its own agent and generation |
| AgentRegistry.QueueIsFifo | internal/registry/registry.go:73-79 | messages leave each session in the order they entered, and no more than max(1, MaxQueueDepth) ever wait |
| AgentRegistry.TakesDeliverInOrder | internal/registry/service.go:94-102 | from every reachable state n takes in a row deliver exactly the next n messages, in order, or all there are |
| AgentRegistry.GenerationsRepeatExactly | internal/registry/registry.go:71-72 | two sessions share a generation if and only if they are a multiple of 2^64 acquisitions apart |
| AgentRegistry.SupersededIsFenced | internal/registry/registry.go:119-133 | within 2^64 sessions, Heartbeat and Release through a superseded session change no entry |
| AgentRegistry.OfflineForever | internal/registry/registry.go:119-133 | once a session is not its agent's online session it never is again; no heartbeat brings it back |
| AgentRegistry.OfflineCause | internal/registry/registry.go:126-174 | an online session goes offline only by a Disconnect of its agent, an Expire past the timeout, or the Release of a session of its agent and generation, which within 2^64 sessions is its own |
| AgentRegistry.AcquiresAreSeparated | internal/registry/registry.go:68-70 | between two successful Acquires of one agent there is a step that took the earlier session offline |
| AgentRegistry.RoutesToTheOnlineSession | internal/registry/registry.go:145-155 | each agent has at most one online session, and messages are routed to it, if and only if it exists |
| AgentRegistry.ExpireLeavesTheRecentlySeen | internal/registry/registry.go:166-174 | after Expire an entry is online if and only if it was and has been seen within the timeout |
| AgentRegistry.DisconnectPanicsExactly | internal/registry/registry.go:134-144 | in every run Disconnect panics if and only if the Release of the agent's current session has closed its queue |
| AgentRegistry.DisconnectAfterReleasePanics | internal/registry/registry.go:134-144 | a concrete run in which that happens |
| AgentRegistry.ReleasePanicsExactly | internal/registry/registry.go:116-118 | in every run that has not panicked, the second half of a Release panics if and only if some Disconnect hit its session while it was attached and open, be it between the halves, and a whole Release if and only if such a Disconnect came before |
| AgentRegistry.DisconnectDoomsRelease | internal/registry/service.go:82-82 | after a Disconnect closed the queue of an attached session, online or not, in every continuation the process has panicked or will when that session is released |
| AgentRegistry.SendPanicsExactly | internal/registry/registry.go:145-155 | in every run that has not panicked, the send of a Dispatch panics if and only if, since its lookup, the session was hit by a Disconnect or its Release closed its queue |
| AgentRegistry.SendAfterDisconnectPanics | internal/registry/registry.go:145-155 | a concrete run in which that happens |
| SshSessions.AllocatePort | internal/ssh/session.go:74-88 | returns the least port without a live unexpired row, fails if and only if there is none, and terminates for all uint32 bounds |
| SshSessions.Scan | internal/ssh/session.go:74-88 | the same, as a function |
| SshSessions.Equal | internal/ssh/session.go:170-179 | the xor-or loop decides equality of byte sequences |
| SshSessions.Manager.Create | internal/ssh/session.go:30-72 | all-or-nothing: it succeeds exactly when request, port and constraints allow, and otherwise changes nothing |
| SshSessions.Manager.ReadySession | internal/ssh/session.go:89-106 | READY is entered, with the host key, if and only if the token matches and the row is PREPARING and unexpired; the token is used up; otherwise nothing changes |
| SshSessions.Manager.Bridge | internal/ssh/session.go:113-133 | returns the agent if and only if the actor owns a READY unexpired session |
| SshSessions.Manager.Close | internal/ssh/session.go:134-145 | forgets the token and then, unless its context has ended, closes a live row and releases its port |
| SshSessions.Manager.Reconcile | internal/ssh/session.go:146-152 | forgets all tokens and then, unless its context has ended, expires exactly the live rows whose time has come |
| SshSessions.TableInvariant | internal/ssh/session.go:30-152 | in every run a row holds a port if and only if it is PREPARING or READY, held ports are pairwise distinct and in range, and each row has an audit row with its actor, agent, expiry and first port |
| SshSessions.TokensBelongToPreparing | internal/ssh/session.go:89-152 | when a Create between the halves of a Reconcile outlives it, and no Create draws an id that a Close in progress names, every token belongs to a PREPARING row in every reachable state |
| SshSessions.LongLivedOutlives | internal/server/ssh.go:24-24 | a session that lives a millisecond or more outlives every Reconcile that began no later than it was created |
| SshSessions.ReconcileFinishExactly | internal/ssh/session.go:146-152 | the second half of Reconcile keeps that property if and only if no token's row expires by then |
| SshSessions.TokenLeftBehind | internal/ssh/session.go:146-152 | a run in which a token is left with an EXPIRED row |
| SshSessions.StepLifecycle | internal/ssh/session.go:89-106 | a session only moves forward, and becomes READY only from PREPARING, before expiry, by exactly the token Create issued |
| SshSessions.ReadyExactly | internal/ssh/session.go:89-106 | in every run a READY message makes a session READY with its host key if and only if the session is PREPARING and unexpired, its token is still held and the message carries the one Create issued; otherwise it changes nothing |
| SshSessions.CreatedSessionServesItsCreator | internal/ssh/session.go:30-133 | once READY by its token, a created session is granted by Bridge, over every continuation, exactly to its creator until its lifetime has passed or it is ended, for the agent asked for and on the port it was given |
| SshSessions.BridgedExactly | internal/ssh/session.go:113-133 | in every run Bridge grants a session if and only if the actor created it, it has become READY, is live and has not expired |
| SshSessions.Lifecycle | internal/ssh/session.go:89-152 | the same over the rest of any run: CLOSED and EXPIRED are final, and a PREPARING session whose token is gone never becomes READY |
| SshSessions.ReconcileStrands | internal/ssh/session.go:146-152 | a session PREPARING when a Reconcile starts is never READY afterwards |
| SshSessions.LiveStep | internal/ssh/session.go:134-152 | one step ends a live session if and only if it carries out a Close of it, which leaves it CLOSED, or a Reconcile at or after its expiry, which leaves it EXPIRED; either way its port is free |
| SshSessions.LiveExactly | internal/ssh/session.go:134-152 | from any state, over every continuation, a live session is still live, on its port, if and only if no Close of it and no Reconcile at or after its expiry has been carried out |
| SshSessions.BridgeOnlyForCreator | internal/ssh/session.go:113-133 | Bridge succeeds only for the actor that created the session, after it became READY in time |
| SshSessions.CapacityBound | internal/ssh/session.go:74-88 | live sessions never outnumber the ports of the range |
| SshSessions.CreateSucceedsExactly | internal/ssh/session.go:30-57 | a Create succeeds if and only if all its fields are set, its lifetime is at most an hour, its references and random values are good, and the least port free of live unexpired rows exists and is held by no row |
| SshSessions.CreateAfterReconcileExactly | internal/ssh/session.go:146-152 | at the instant of a Reconcile it succeeds if and only if fewer sessions are live than there are ports |
| TunnelRelay.Relay.Register | internal/tunnel/relay.go:39-57 | registers a fresh record with an empty channel if and only if the session is named and not registered |
| TunnelRelay.Relay.Cancel | internal/tunnel/relay.go:65-72 | drops whatever registration the session has |
| TunnelRelay.Relay.ServeGet | internal/tunnel/relay.go:77-80 | Serve works on the record registered at the time of its lookup |
| TunnelRelay.Relay.ServeOffer | internal/tunnel/relay.go:81-85 | the non-blocking hand-over succeeds if and only if the channel is empty |
| TunnelRelay.Relay.Offer | internal/tunnel/relay.go:76-85 | lookup and hand-over together |
| TunnelRelay.Relay.ServeAbandon | internal/tunnel/relay.go:89-91 | a cancelled Serve drops the session's registration |
| TunnelRelay.Relay.ServeDone | internal/tunnel/relay.go:87-88 | Serve returns once `done` is closed |
| TunnelRelay.Relay.AttachGet | internal/tunnel/relay.go:97-104 | an agent is bound if and only if it presents the registered record's token |
| TunnelRelay.Relay.AttachTake | internal/tunnel/relay.go:105-107 | the agent takes the one client in the channel of its own record |
| TunnelRelay.Relay.AttachAbandon | internal/tunnel/relay.go:108-111 | a cancelled Attach drops the session's registration |
| TunnelRelay.Relay.AttachClose | internal/tunnel/relay.go:112-112 | the end of a splice first closes `done`, and panics if and only if it was closed before |
| TunnelRelay.Relay.AttachRemove | internal/tunnel/relay.go:112-112 | it then drops the session's registration, whichever record that is by now |
| TunnelRelay.Pairing | internal/tunnel/relay.go:76-114 | in every interleaving each splice joins a client handed to, and an agent bound by its non-empty token to, one and the same record, and no stream is in two splices |
| TunnelRelay.RegistrationsChangeExactly | internal/tunnel/relay.go:39-114 | a session is registered exactly since a registration that no cancellation, abandoned call or end of a splice of that session has dropped; a registration makes a new record with its token |
| TunnelRelay.ClientAndAgentMeet | internal/tunnel/relay.go:76-107 | from any state a new client and a new agent with the record's token are spliced when both call for a registered session whose channel is empty |
| TunnelRelay.SpliceEnds | internal/tunnel/relay.go:86-113 | the end of a splice drops the registration of its session, and a client that waits on its record returns without error |
| TunnelRelay.HandOffsBoundSplices | internal/tunnel/relay.go:81-113 | a record has no more splices than hand-offs and no more closes of `done` than splices, so one hand-off means at most one of each |
| TunnelRelay.ServeSuccessIsOwn | internal/tunnel/relay.go:86-88 | with one hand-off, Serve returns without error only when its own stream was spliced and the splice has ended |
| TunnelRelay.DonePanicsExactly | internal/tunnel/relay.go:112-112 | in every run the end of a splice closes a closed `done` if and only if another splice of the same record has already ended |
| TunnelRelay.DoneClosedTwice | internal/tunnel/relay.go:65-69 | a run in which one record gets two hand-offs and `done` is closed twice |
| ByteStream.CopyIn | internal/agent/ssh.go:72-88 | the reading loop over one reused buffer sends the framed reads, up to the first failing send |
| ByteStream.Fill | internal/agent/ssh.go:73-76 | a Read overwrites the front of the buffer and keeps the rest |
| ByteStream.Pump | internal/tunnel/relay.go:123-143 | the relay loop forwards frame by frame, drops empty frames and ends at Close |
| ByteStream.CopyOut | internal/clientapi/client.go:106-128 | the writing loop writes the data of its frames in order, up to Close, end of stream or a failing write |
| ByteStream.ThreeLoopsAreTransparent | internal/tunnel/relay.go:123-143 | however the reads are chunked, framing, pumping and writing give back the same bytes |
| ByteStream.DirectionInvariant | internal/agent/ssh.go:70-113 | in every interleaving each byte read is written, on the way in order, or lost at a failed send; nothing follows a Close frame |
| ByteStream.LoopsInterleaved | internal/tunnel/relay.go:123-143 | in every interleaving, whatever fails, the frames sent up, those sent down and the bytes written are prefixes of what the three loops produce for what each of them got, and each gets in order what the one before it sent |
| ByteStream.TunnelIsFaithful | internal/clientapi/client.go:87-129 | in both directions the bytes written are always a prefix of those read, and a direction that reached its Close frame delivered all of them |
| ByteStream.Drains | internal/tunnel/relay.go:123-143 | once the source has closed and unless something fails, the direction can always run on until every byte is delivered |
| SshBridge.BridgeInvariant | internal/server/ssh.go:62-94 | session table, relay, registry and BridgeSsh calls stay consistent in every interleaving |
| SshBridge.RequestsGoToTheAgent | internal/server/ssh.go:82-89 | every tunnel request in any queue is in a session of its SSH session's own agent and carries a token the relay issued for that session |
| SshBridge.ClientsOwnTheirTunnels | internal/server/ssh.go:78-93 | every client ever spliced is the actor that created the session, and the session had become READY |
| SshBridge.TunnelsJoinOwnerAndAgent | internal/registry/service.go:33-51 | when agents open tunnels only with what they were sent, every splice joins a session's creator with that session's agent, who presented the record's token |
| SshBridge.FindsOwnExactly | internal/tunnel/relay.go:59-69 | from a call's registration on, its lookup finds its own record if and only if no step has dropped the session's registration in between |
| SshBridge.DoneClosedOnce | internal/tunnel/relay.go:76-113 | in every run in which each lookup finds the call's own record or none, every record has at most one hand-off, one splice and one close of `done` |
| SshBridge.UndroppedClosesOnce | internal/server/ssh.go:82-92 | the same when nothing drops a registration between a call's registration and its lookup |
| SshBridge.PresentationsBoundSplices | internal/tunnel/relay.go:96-113 | in every run, whatever the callers drop or find, a record has at most as many splices, and closes of `done`, as agents opened streams with its token |
| SshBridge.PresentedOnceClosesOnce | internal/tunnel/relay.go:96-113 | so a record whose token no two streams present has at most one splice and one close of `done` |
| SshBridge.RelayRuns | internal/server/ssh.go:62-94 | whatever the calls do, the relay takes a run of its own steps, so what holds of all its runs holds here |
| SshService.Service.Prepare | internal/server/ssh.go:13-34 | either the session exists and its agent has been sent its port and token; or it is closed again; or the context has ended and only the token is gone, while the row stays PREPARING; without success the registry is unchanged |
| SshService.FailureFreesExactly | internal/server/ssh.go:29-31 | after a failed preparation the token is gone, its port is occupied until the session expires if and only if the context had ended, and every other port is as busy as before |
| SshService.StrandedSession | internal/ssh/session.go:134-145 | in every run a session whose preparation failed on an ended context never becomes READY, and holds its port if and only if no Close of it and no Reconcile at or after its expiry has been carried out |
| SshService.Service.CloseSession | internal/server/ssh.go:45-57 | the session is closed whether or not its agent can be told, and no other row changes; on an ended context it only loses its token, and the agent is not told |
| SshService.Service.RequestTunnel | internal/server/ssh.go:82-89 | registration and request both happen, or the registration is undone |
| SshService.CancelUndoesRegister | internal/tunnel/relay.go:71-72 | cancelling right after registering restores the registrations and touches no call |
| SshService.Service.Serve | internal/tunnel/relay.go:76-85 | the hand-over leaves the registry as it was |
| SshService.Service.Connect | internal/server/ssh.go:82-92 | after success the client waits in the channel of a record whose token its agent was sent; after failure nothing is registered |
| SshService.Service.Bridge | internal/server/ssh.go:62-93 | BridgeSsh reaches its wait if and only if the table grants it, the session is not registered and its agent can be told |
| SshService.BridgeIsARun | internal/server/ssh.go:62-93 | what a successful call leaves behind is reached by a run of the bridge's steps, so the theorems about runs cover it |
| SshService.FailedBridgeIsARun | internal/server/ssh.go:82-89 | so is what a call leaves behind that is refused by the relay, cannot reach its agent or is given up |
| AuthorizedKeys.RemoveSession | internal/ssh/keys.go:116-125 | the in-place loop leaves exactly the lines without the session's needle, in order |
| AuthorizedKeys.ReconcileLines | internal/ssh/keys.go:36-55 | the in-place loop leaves exactly the unmanaged and the unexpired lines, in order |
| AuthorizedKeys.Marker | internal/ssh/keys.go:126-133 | finds the first field that starts like a marker |
| AuthorizedKeys.KeyStore.Load | internal/ssh/keys.go:57-74 | reads the lines of the file, or fails on a line that is too long |
| AuthorizedKeys.KeyStore.Install | internal/ssh/keys.go:20-32 | succeeds exactly with a path, an id, an expiry and a key of at least two fields that begins with ssh- on a readable file, and then replaces the session's lines with its new one |
| AuthorizedKeys.KeyStore.Remove | internal/ssh/keys.go:33-35 | rewrites the file without the session's lines |
| AuthorizedKeys.KeyStore.Reconcile | internal/ssh/keys.go:36-56 | rewrites the file without the expired lines |
| AuthorizedKeys.WrittenReadsBackExactly | internal/ssh/keys.go:57-84 | reading back what was written gives the same lines if and only if none holds a newline or ends in a carriage return, and succeeds if and only if none is too long |
| AuthorizedKeys.RawLinesExactly | internal/ssh/keys.go:57-74 | the lines read, each with a newline, make up the text, or the text and a last newline |
| AuthorizedKeys.CleanExactly | internal/ssh/keys.go:64-67 | a line survives being written and read if and only if it holds no newline and does not end in a carriage return |
| AuthorizedKeys.MarkerReadsBackExactly | internal/ssh/keys.go:126-133 | the printed marker is found again if and only if the key blob does not start like a marker, or is that very marker |
| AuthorizedKeys.MarkerSplitsExactly | internal/ssh/keys.go:45-48 | splitting the marker gives back id and expiry if and only if the id has no colon, for every expiry |
| AuthorizedKeys.KeepsExactlyUnexpired | internal/ssh/keys.go:40-52 | Reconcile keeps a printed line if and only if its expiry is later than now |
| AuthorizedKeys.KeepsExactly | internal/ssh/keys.go:40-52 | Reconcile keeps any line if and only if none of its fields starts like a marker, or the first that does has three parts, the last a 64-bit number later than now |
| AuthorizedKeys.NeedleFindsExactly | internal/ssh/keys.go:118-120 | a printed line mentions a session's needle if and only if it is that session's line |
| AuthorizedKeys.ForeignLinesKept | internal/ssh/keys.go:20-84 | over the file as written and read again, whatever it holds: the lines without the marker text stay as they were, in order, if and only if the file is not rewritten, or none of them ends in a carriage return and every line the new one is read back as holds the marker text |
| AuthorizedKeys.OnePiece | internal/ssh/keys.go:28-31 | a session id without a newline is printed as one line that holds the marker text |
| AuthorizedKeys.ReturnIsLost | internal/ssh/keys.go:64-67 | a file whose foreign line changes when any session is removed |
| AuthorizedKeys.FileRefinesRecords | internal/ssh/keys.go:20-84 | over any sequence of operations the file is the foreign lines it began with plus one line per record of a text-free list |
| AuthorizedKeys.SessionHasOneLine | internal/ssh/keys.go:29-31 | each session has at most one line, the printed form of its record |
| AuthorizedKeys.SessionEffects | internal/ssh/keys.go:20-56 | Install and Remove leave other sessions' lines alone; afterwards the session has exactly its new line, or none |
| Text.ParseOfFormat | internal/ssh/keys.go:49-49 | parsing a printed 64-bit number gives it back |
| Identity.EnrollmentManager.CreateToken | internal/pki/pki.go:125-142 | a token row is inserted if and only if the lifetime is positive, id and hash are new and the creator is a user or left out, and the text handed out leads back to its hash |
| Identity.EnrollmentManager.ConsumeToken | internal/pki/pki.go:143-158 | the guarded update settles only rows with the presented hash that are neither consumed, revoked nor expired, and reports success if and only if there was exactly one |
| Identity.EnrollmentManager.Revoke | internal/pki/pki.go:190-200 | revokes exactly an active token |
| Identity.IdentityRegistry.RegisterWithMetadata | internal/pki/identity.go:25-31 | registers if and only if id and serial are set and new |
| Identity.IdentityRegistry.AuthorizeRenewal | internal/pki/identity.go:32-46 | grants exactly an unrevoked unexpired agent |
| Identity.IdentityRegistry.UpdateCertificate | internal/pki/identity.go:47-57 | replaces serial and expiry if and only if the agent is unrevoked and the serial is nobody else's |
| Identity.IdentityRegistry.Revoke | internal/pki/identity.go:58-68 | revokes once |
| Identity.IdentityRegistry.AuthorizeConnection | internal/pki/identity.go:69-81 | accepts exactly the stored serial of an unrevoked unexpired agent |
| Identity.Enrollment.Enroll | internal/server/enrollment.go:27-58 | an uninterrupted Enroll takes exactly the steps of the model and registers if and only if request, token, signature, id and serial are all good; the token is then one that was neither consumed, revoked nor expired |
| Identity.Enrollment.Renew | internal/server/enrollment.go:59-83 | an uninterrupted Renew takes exactly the steps of the model and succeeds if and only if the agent is named, known, unrevoked and unexpired, the request is signed and no other agent has the serial |
| Identity.IdentityInvariant | internal/server/enrollment.go:27-83 | tokens, agents, serials and calls in flight stay consistent in every run |
| Identity.EachAgentSpentItsOwnToken | internal/server/enrollment.go:39-56 | in every run agents map injectively to consumed tokens, and no token is both consumed and revoked |
| Identity.TokensAreConserved | internal/server/enrollment.go:39-56 | the consumed tokens number exactly the agents, plus the Enroll calls in flight, plus the tokens lost by failed calls |
| Identity.SettledTokenStays | internal/pki/pki.go:149-149 | a consumed or revoked token never changes again |
| Identity.ConsumeSucceedsExactly | internal/pki/pki.go:143-158 | in every run consuming succeeds if and only if some row has the hash of the well-formed token and is neither consumed, revoked nor expired, and settles that one row only |
| Identity.ExpiredTokensEnrollNobody | internal/pki/pki.go:143-158 | in every run no token was consumed after its expiry, and every agent's own token was consumed in time |
| Identity.CreatedTokenIsAcceptedExactly | internal/pki/pki.go:125-158 | over every continuation the text of a created token is accepted if and only if its row is neither consumed nor revoked and its lifetime has not passed; that consumes its row and no other |
| Identity.SettledTokenIsRefused | internal/pki/pki.go:149-156 | a settled token is refused at every later point of every run |
| Identity.RevokedTokenIsRefused | internal/pki/pki.go:190-200 | revoking settles exactly an active token, and from then on it is refused in every continuation |
| Identity.EnrollFinishExactly | internal/server/enrollment.go:42-57 | an Enroll call that holds a token registers if and only if the request is signed and id and serial are set and new; the agent is then authorized exactly with that serial for the configured time, or a day, and has spent that token |
| Identity.RenewStartsExactly | internal/pki/identity.go:32-46 | a renewal starts if and only if the agent is named, known, unrevoked and unexpired |
| Identity.RenewFinishExactly | internal/pki/identity.go:47-57 | a renewal in flight is stored if and only if it is signed, its agent is unrevoked and no other agent has the serial; the agent is then authorized exactly with the new serial for the configured time, or a day |
| Identity.RevokesOnce | internal/pki/identity.go:58-68 | a revocation marks an unrevoked agent with its time and changes no other |
| Identity.DecodeUndoesEncode | internal/pki/pki.go:133-147 | the hexadecimal token text gives back its bytes |
| Identity.RevokedStays | internal/pki/identity.go:47-68 | a revoked identity's row never changes again, whatever renewals are in flight |
| Identity.RevocationIsFinal | internal/pki/identity.go:32-81 | from a revocation on, no serial is authorized, no renewal starts and one in flight fails |
| Identity.AuthorizedExactly | internal/pki/identity.go:69-81 | in every run a connection is authorized if and only if it presents the serial stored last for an unrevoked unexpired agent |
| Identity.SerialIdentifiesTheAgent | internal/pki/identity.go:69-81 | one serial never authorizes two agents |
| Identity.SerialsChangeExactly | internal/server/enrollment.go:75-81 | an agent's serial history grows if and only if a granted renewal of that agent is signed and stored |
| Identity.LateRenewalRevives | internal/server/enrollment.go:68-81 | a renewal still in flight makes an expired identity authorized again, if and only if its update is allowed |
| RateLimit.RateLimiter.Allow | internal/auth/auth.go:151-164 | one call accepts and counts exactly as specified, and no other key notices |
| RateLimit.IntervalBound | internal/auth/auth.go:151-164 | any half-open interval of k windows accepts at most (k + 1) times the limit for one key |
| RateLimit.RefusedOnlyWhenFull | internal/auth/auth.go:155-161 | a call is refused only when its key had `limit` acceptances in the last window |
| RateLimit.KeysAreIndependent | internal/auth/auth.go:154-162 | dropping all calls for other keys changes nothing for a key |
| Backoffs.Backoff.Next | internal/registry/registry.go:184-199 | the k-th consecutive call draws below the k-th limit; it panics exactly at a limit of 2^63 - 1 |
| Backoffs.Backoff.Reset | internal/registry/registry.go:200-200 | the next call starts at the minimum again |
| Backoffs.Reconnect | internal/agent/stream.go:61-93 | every wait of the loop is bounded by the minimum at the start and after a success and by the doubled and capped bound before it otherwise, up to the first bound at which Int63n panics, or the bounds are rejected |
| Backoffs.StreakExactly | internal/agent/stream.go:61-85 | the failures counted are those since the last success, or since the start |
| Backoffs.ReconnectNeverPanicsExactly | internal/agent/stream.go:78-91 | however many attempts fail in a row, the loop never panics if and only if no doubling below max overflows and max is below 2^63 - 1 |
| Backoffs.NextClosedFormExactly | internal/registry/registry.go:184-199 | the limits are min(max, min * 2^k) for all k if and only if max is below 2^62 |
| Backoffs.DelayClosedFormExactly | internal/agent/stream.go:86-91 | the loop's limits are min(max, min * 2^k) for all k if and only if no doubling below max overflows |
| Backoffs.LoopsAgree | internal/agent/stream.go:86-91 | below 2^62 the two backoffs agree step by step |
| Backoffs.LoopsPartAtTwo62 | internal/registry/registry.go:189-192 | at 2^62 they do not |
| CapturedOutput.LimitedBuffer.Write | internal/maintenance/maintenance.go:63-78 | the buffer holds the first bytes of all writes up to its maximum and knows whether anything was cut |
| CapturedOutput.LimitedBuffer.Snapshot | internal/maintenance/maintenance.go:80-84 | gives those bytes; with non-empty writes, truncated if and only if their total exceeds the maximum |
| CapturedOutput.StreamJobOutput | internal/server/output.go:9-35 | the loop sends the chunks of the output up to the first failing send, or reports a missing or unfinished job; it ends without error if and only if every send succeeds |
| CapturedOutput.ChunksAreChunking | internal/server/output.go:20-33 | those chunks are what clients rely on: the bytes in order, numbered, full except the last, exactly the last marked Final |
| CapturedOutput.Fetch | internal/clientapi/client.go:535-555 | one fetch gives the whole output of a finished job, or an error exactly when the job is missing or unfinished or a send failed |
| CapturedOutput.ChunkingIsUnique | internal/server/output.go:20-34 | numbering, piece size, one Final at the end and the bytes determine the chunks completely |
| CapturedOutput.ChunkCount | internal/server/output.go:21-33 | how many chunks an output has |
| CapturedOutput.Receive | internal/clientapi/client.go:535-555 | the client returns the data up to the first Final chunk, or the stream's error |
| CapturedOutput.CapturedEndToEnd | internal/clientapi/client.go:535-555 | from the command's writes to the client exactly the first `max` bytes arrive, and a stream that breaks early is never taken for complete |

## Left out

- gRPC, TLS, certificates, Argon2, base64 and random generation: library code; hashes are functions, ids, tokens and serials are parameters.
- SQL text, I/O errors of database and files, pragmas, backups: only tables, constraints, guarded updates and atomic commits are modelled.
- Process execution, systemctl, temporary files and renames: a command is its outcome, the key file is its contents.
- internal/registry/persistence.go, metrics, the client TUI, EasyPanel, role table and CIDR checks: nothing that spans operations.
- The administrative jobs that update rows outside the job calls modelled here are not part of the job protocol.
- The validator restart of the job protocol keeps tables and logs; the SSH bridge is modelled for one validator process.
- Negotiated limits, connection state messages, cancel acknowledgements and output chunks sent by agents carry no state the properties need.
- The `port` argument of Ready is ignored by the code and left out; so is the session row that the SSH calls return.
- White space and key text are ASCII; times are unbounded integers, except in the two backoffs.
- Context cancellation is a step (`GiveUpSubmit`, `GiveUp`, the abandoned waits) or a parameter (`gaveUp`, `ended`, `contextDone`). A statement on an ended context is refused; that is modelled for the clean-up after a failed dispatch and for the second halves of Close and Reconcile. Elsewhere a call that stops is one whose next step is never taken. A blocked send is a step that changes nothing.
- A second close of `done` is counted and the run goes on, although the process would end there.
- Fleet.Validator.Admit: takes the claims as given; a call without them is refused before this model begins.
- Fleet.Validator.Submit: does not tell a failed audit insert from a failed job insert, because both roll back to the same state.
- SshService.Service.Serve: covers the call up to its wait; what happens after is in the relay's own steps.
