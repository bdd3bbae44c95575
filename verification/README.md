# A verified model of SHOC's protocols

SHOC is a single-threaded, event-driven C++ layer over the DOCA SDK. This project models the protocols
that SHOC builds on top of the SDK and proves what they keep over every run:

- **Stopping.** Servers, clients, AES-GCM contexts and the progress engine may only stop when everything
  below them has stopped. Requests go down the tree, IDLE events come back up and trigger deferred stops.
- **Meeting.** Callbacks and fibers meet in receptables and accepter queues, and resumed fibers re-enter
  the queues they were resumed from.
- **Offloading.** Tasks are submitted, retried, completed and freed; windows of tasks are kept in flight.
- **Packets.** Checksums in 16- and 32-bit arithmetic on either byte order, packed header fields, an
  in-place UDP echo.
- **Bookkeeping.** Remote consumers, RDMA connections, and the merging of recovered erasure-coded blocks.

The SDK is an environment that issues steps in any order it likes. What the model assumes of it is written
in the `Possible` predicate of each module (`ClientCan` for the client).

## Layout

Every component has the same shape. A specification gives the state as a datatype and each callback or call
as a function on it. Lemmas prove what every run of those functions keeps, and what its states say about its
events (the `_history`, `_scripts` and `_results` files). A class has the fields and methods of the source
object, and each method is proved to do what the specification says. Fields that only the proofs need (what
reached the SDK, who was live at that moment, what was written where) are ghost.

| files | component |
|---|---|
| `server_spec`, `server_safety`, `server_progress`, `server_reentry`, `server_history`, `server_model` | comch server, its connections, their children |
| `client_stop`, `client_history` | comch client and its children |
| `context_waiters`, `context_history` | state changes of a context, fibers that wait for them |
| `accepter_spec`, `accepter_proofs`, `accepter_disconnect`, `accepter_scripts`, `accepter_model` | accepter queues with re-entrant resumption |
| `remote_consumers` | remote consumer registry on top of them |
| `task_spec`, `task_proofs`, `task_results`, `task_model` | submission, retries, completion, rendezvous with the fiber |
| `event_pump`, `event_history` | leases, fibers, and the pump that sleeps in epoll |
| `aes_keys`, `aes_history`, `rdma_cm`, `rdma_history` | AES-GCM keys, RDMA connection manager |
| `ones_complement`, `eth_checksum`, `udp_checksum`, `udp_echo` | Internet checksums and the echo sample |
| `bit_operations`, `packed_headers` | IPv4 and IPv6 header fields |
| `option`, `machine_words`, `histories` | a value that may be missing, unsigned machine integers, flags of a run |
| `compress_window`, `callback_window`, `erasure_recovery` | the samples' pipelines and loops |

## Where the code does not meet what one would expect

Each of these is proved for all inputs, with the exact condition under which the code meets it; where that is
not a condition on a single call, a lemma also gives a concrete run.

- A child that is created on a connection which is already disconnecting is never asked to stop by
  `server::stop()`, and the server then does not stop: `StopDrains`, with the run `StrandedChild`.
- When a delayed resubmission gives up while the fiber is suspended, the error is stored but the fiber is
  not woken: `Rendezvous`, with the run `UnwokenRun`.
- An accepter that waits when its queues are disconnected gets a payload instead of the error if a fiber
  before it supplies when it is resumed: `AllGetTheError`, with the run `PayloadInsteadOfError`.
- The pump returns although a lease is held if it had nothing to wait for at some moment of its latest
  wait: `ReturnsUnderLease`, with the run `LeaseOutlivesPump`.
- A second fiber that awaits a context's stop takes the place of the first: `StopWaiter`, with the run
  `DisplacedRun`.
- Moving an AES-GCM key onto a live one leaves the counter too high, and the context never stops:
  `KeysCounted`, `LastKeyStops`, `OverwrittenNeverStops`, with the run `OverwrittenRun`.
- A pending RDMA connect is never answered once the context has begun to listen: `ConnectAnswered`,
  `ListeningStrandsConnect`, with the run `ConnectThenListen`.
- The UDP checksum adds twice the segment's bytes and loses a carry of the pseudo-header. `UdpMatchesRfc768`
  says exactly when it still is the checksum of RFC 768, `LostCarry` gives a datagram for which it is not.
- With zero resubmission attempts the counter wraps, and with 2^32 - 1 immediate attempts a busy device is
  retried forever: `DocumentedBound`, `NeverGivesUp`.
- Out-of-range IHL, ECN, fragment offset and flow label values spill into the fields they share a word
  with: `SetterEffectIpv4`, `SetterEffectIpv6`.
- With fewer chunks than slots the parallel compression awaits an empty slot: `CompressInParallel`.

## Model

| member | source | states |
|---|---|---|
| `ServerSafety.StopSafety` | shoc/comch/server.cpp:78-249 | in every state of every run, a disconnect only ever reached the SDK when every child ever created on that connection was idle, a server stop only when every connection was gone and every child idle; once the stop is accepted nothing below the server is alive |
| `ServerSafety.StopNotForgotten` | shoc/comch/server.cpp:205-249 | a requested stop has reached the SDK at least once whenever no connection is open |
| `ServerSafety.LastConnectionStops` | shoc/comch/server.cpp:205-249 | whatever was refused before, the step of a run that takes away the last connection after a requested stop, or that requests the stop when there is none, stops the server if the SDK accepts |
| `ServerSafety.StepKeeps` | shoc/comch/server.cpp:78-309 | every event keeps: registries hold exactly the non-idle children, `open_connections_` exactly the connections that are not disconnected, every request so far found nothing live below it |
| `ServerSafety.RunKeeps` | README.md:253-266 | that invariant holds in every reachable state |
| `ServerSafety.StopKeeps` | shoc/comch/server.cpp:205-224 | stopping keeps the invariant, whichever connections and children go away while the loop visits them |
| `ServerSafety.DisconnectKeeps` | shoc/comch/server.cpp:78-115 | disconnecting keeps the invariant, even if children turn idle while they are being asked |
| `ServerSafety.ChildIdleKeeps` | shoc/comch/server.cpp:117-122 | the IDLE event of a child, with the deferred disconnect and stop it may trigger, keeps the invariant |
| `ServerSafety.DisconnectElsewhere` | shoc/comch/server.cpp:78-148 | disconnecting one connection changes nothing about another, nor about the children on it |
| `ServerSafety.DisconnectTwice` | shoc/comch/server.cpp:97-148 | a repeated disconnect of a connection changes nothing |
| `ServerSafety.WindingStep` | shoc/context.hpp:451-466 | asking one more child to stop, even one that turns idle and disconnects at once, moves the closed form of the loop on by exactly that child |
| `ServerSafety.VisitNext` | shoc/comch/server.cpp:211-220 | visiting one connection leaves every connection still to be visited in the registry |
| `ServerProgress.StopDrains` | shoc/comch/server.cpp:205-224 | with an obliging SDK, the tree drains after stop if and only if it held no connection that was already disconnecting with an unasked child or none at all |
| `ServerProgress.DrainStep` | shoc/comch/server.cpp:117-148 | each IDLE event of a child strictly decreases open connections + live children and keeps the tree draining |
| `ServerProgress.NeverStuck` | README.md:253-266 | a draining tree with open connections has a child that was asked to stop and is not idle; nothing is left exactly when no connection is open, and then the stop has been issued |
| `ServerProgress.StopProgress` | shoc/comch/server.cpp:205-249 | after stop, over every run without arrivals, with requests, remote disconnects and further stops in between: no more children turn idle than were live, the server's own stop is accepted exactly when they all have, and until then an asked child has yet to turn idle |
| `ServerProgress.QuietStep` | shoc/comch/server.cpp:78-309 | in a draining tree every event that is no arrival keeps it draining, and only the IDLE event of a child changes who is live |
| `ServerProgress.DisconnectEachVisits` | shoc/comch/server.cpp:211-220 | after the loop every connection that was connected is gone or waits for children it has asked; all others are as before |
| `ServerProgress.DisconnectHere` | shoc/comch/server.cpp:78-115 | after disconnect a connected connection is gone or waits only for children that were asked |
| `ServerProgress.StrandedChild` | shoc/comch/server.cpp:87-93 | a run in which a child created during a disconnect is never asked, and the server's stop is not issued |
| `ServerReentry.EraseExactly` | shoc/comch/server.cpp:124-148 | exactly these operations of a fiber that is resumed in the middle of `server::stop` erase a connection the loop has yet to visit: its disconnect with all children idle at once, the idling of its last child, its remote disconnect, a nested stop that disconnects it at once |
| `ServerReentry.LeaveExactly` | shoc/context.hpp:451-466 | exactly these operations take a child away that `stop_all` has yet to visit: its IDLE event, or its stop if that turns it idle at once |
| `ServerReentry.UnvisitedStays` | shoc/comch/server.cpp:211-220 | after any script of such operations an unvisited connection is still registered if and only if none of them erased it |
| `ServerHistory.DisconnectedWasCalled` | shoc/comch/server.cpp:97-148 | in every run a connection is disconnected only if the SDK was asked to disconnect it, with all its children idle, or its client went away; the SDK is asked to disconnect only what is no longer connected, and to stop only after a stop |
| `ServerHistory.ConnectedUntilAsked` | shoc/comch/server.cpp:78-148 | in every run a connection is connected exactly until it is asked to disconnect, the server is stopped, or its client goes away |
| `ServerHistory.ArrivedIsHistory` | shoc/comch/server.cpp:266-287 | in every run the known connections are exactly those that arrived |
| `ServerHistory.StartedIsHistory` | shoc/context.hpp:415-431 | in every run the known children are exactly those that started |
| `ServerHistory.StopIsHistory` | shoc/comch/server.cpp:205-209 | in every run a stop is remembered exactly if there was one |
| `ServerHistory.LiveUntilIdle` | shoc/context.hpp:246-285 | in every run a child stays with its connection and is live until its IDLE event, or until it turns idle when asked |
| `ServerHistory.RegisteredUntilIdle` | shoc/context.hpp:407-409 | in every run it is registered exactly that long |
| `ServerHistory.StepKid` | shoc/context.cpp:25-35 | exactly how each event changes each child: its IDLE event, or the SDK's answer if and only if the event asks it |
| `ServerHistory.ServerObeys` | shoc/comch/server.cpp:226-234 | the server leaves RUNNING only when the SDK accepts its stop, and is idle only by its IDLE event |
| `ServerModel.ServerConnection.Disconnect` | shoc/comch/server.cpp:78-95 | disconnects as specified, although the loop over the children may already have disconnected |
| `ServerModel.ServerConnection.DisconnectIfAble` | shoc/comch/server.cpp:97-115 | the SDK is asked only with an empty registry; on success the connection is marked and leaves the server |
| `ServerModel.ServerConnection.SignalStoppedChild` | shoc/comch/server.cpp:117-122 | the child leaves the registry; a disconnecting connection then tries again |
| `ServerModel.ServerConnection.SignalDisconnect` | shoc/comch/server.cpp:124-148 | the connection is disconnected and leaves the server's registry, which may issue the server's stop |
| `ServerModel.ServerConnection.StopAll` | shoc/context.hpp:451-466 | every registered child is asked once, though each may remove itself and disconnect the connection meanwhile |
| `ServerModel.ServerConnection.StopChild` | shoc/context.cpp:25-35 | refused, in progress, or idle before the call returns |
| `ServerModel.ServerConnection.ChildStateIdle` | shoc/context.hpp:272-279 | the child is idle and its parent is told |
| `ServerModel.ServerConnection.CreateChild` | shoc/context.hpp:415-431 | a child that starts is registered, one that does not is not |
| `ServerModel.Server.Stop` | shoc/comch/server.cpp:205-224 | disconnects each open connection once in the order of the registry, then stops if able |
| `ServerModel.Server.DisconnectAll` | shoc/comch/server.cpp:211-220 | visits every open connection exactly once although each may erase itself |
| `ServerModel.Server.DoStopIfAble` | shoc/comch/server.cpp:226-234 | the stop is issued only with no open connection |
| `ServerModel.Server.SignalDisconnect` | shoc/comch/server.cpp:236-249 | the connection is erased, and a requested stop is tried again |
| `ServerModel.Server.ConnectionCallback` | shoc/comch/server.cpp:266-287 | a new connection is registered as connected and without children |
| `ServerModel.Server.DisconnectionCallback` | shoc/comch/server.cpp:289-309 | a known connection is marked disconnected and leaves; an unknown one changes nothing |
| `ClientStop.ClientSafety` | shoc/comch/client.cpp:55-83 | in every run the client's stop reached the SDK only when every child ever created was idle; once the SDK has accepted it, and in an idle client, no child is live |
| `ClientStop.ClientStopDrains` | shoc/comch/client.cpp:55-64 | with an obliging SDK, the client drains after stop if and only if it was connected or draining before |
| `ClientStop.ClientDrains` | shoc/comch/client.cpp:66-83 | over every run of a draining client without arrivals, each IDLE event leaves one child less, nothing else does, and exactly one more stop reaches the SDK, when the last live child has turned idle |
| `ClientStop.ClientProgress` | shoc/comch/client.cpp:55-83 | after stop from CONNECTED, over every run without arrivals: a stop has reached the SDK exactly when as many children turned idle as were live, it is then accepted, and until then an asked child has yet to turn idle |
| `ClientStop.AskEachAsks` | shoc/context.hpp:451-466 | after the loop every child still registered has been asked |
| `ClientHistory.ConnectedGoesOn` | shoc/comch/client.cpp:66-71 | a client that nobody stopped stays connected and issues nothing, whatever becomes of its children |
| `ClientHistory.StopWasAsked` | shoc/comch/client.cpp:55-83 | in every run the client's stop reaches the SDK only while it is disconnecting or is being stopped |
| `ClientHistory.ConnectedUntilStopped` | shoc/comch/client.cpp:167-181 | in every run the client is connected exactly from its start until it is stopped or the SDK stops it |
| `ClientHistory.DisconnectedIffIdle` | shoc/comch/client.cpp:167-181 | in every run the client is disconnected exactly if its context is idle, and connected only while it runs |
| `ClientHistory.RegisteredUntilIdle` | shoc/context.hpp:407-431 | in every run a child that started is registered exactly until its IDLE event, or until it turns idle when asked |
| `ClientHistory.StepKid` | shoc/context.cpp:25-35 | exactly how each event changes each child |
| `ClientHistory.ClientObeys` | shoc/comch/client.cpp:73-83 | apart from the SDK's own state changes, the context changes only if the SDK accepts its stop |
| `ClientStop.ClientContext.Stop` | shoc/comch/client.cpp:55-64 | asks each registered child once, then stops if able; does nothing unless connected |
| `ClientStop.ClientContext.StopAll` | shoc/context.hpp:451-466 | asks every registered child exactly once, though each may remove itself |
| `ClientStop.ClientContext.SignalStoppedChild` | shoc/comch/client.cpp:66-71 | the child leaves the registry; a disconnecting client then tries to stop |
| `ClientStop.ClientContext.DisconnectIfAble` | shoc/comch/client.cpp:73-83 | the stop is issued only with an empty registry; if the SDK accepts, the context is stopping |
| `ClientStop.ClientContext.StateChanged` | shoc/comch/client.cpp:167-181 | every state change that the SDK can make is that event of the run and keeps the registry, the quiet calls and the idle subtree |
| `ContextWaiters.StopWaiter` | shoc/context.cpp:64-82 | a fiber that awaits stop has gone on exactly once, or still waits and the context is not idle, or lost its place to another fiber that awaits stop |
| `ContextWaiters.NeverEarly` | shoc/context.hpp:265-284 | in every run a fiber that awaits stop only ever goes on at a step after which the context is idle, one that awaits the start only when it is running, and neither before it has awaited |
| `ContextWaiters.LogNeverEarly` | shoc/context.hpp:265-284 | every continuation in the log happened in the state that was awaited |
| `ContextWaiters.DisplacedRun` | shoc/context.cpp:71-82 | a run in which a second stop waiter takes the place of the first, which never goes on |
| `ContextHistory.StartWaiter` | shoc/context.cpp:64-82 | a fiber that awaits the start has gone on exactly once, or still waits and the context is not running, or lost its place to another one |
| `ContextHistory.ParentToldOnce` | shoc/context.hpp:255-279 | in every run the hook runs once per state change and the parent is told once per IDLE |
| `ContextHistory.StateIsReported` | shoc/context.hpp:255 | in every run the state is the one reported last |
| `ContextHistory.HandleUntilIdle` | shoc/context.hpp:276 | in every run the handle is there exactly until the context was reported idle |
| `ContextWaiters.Context.StateChangedCallback` | shoc/context.hpp:246-285 | new state, hook, then the waiter of that state is taken out and goes on last |
| `ContextWaiters.Context.AwaitStopped` | shoc/context.cpp:64-82 | goes on at once when idle, else becomes the stop waiter |
| `ContextWaiters.Context.AwaitStarted` | shoc/context.cpp:64-82 | goes on at once when running, else becomes the start waiter |
| `AccepterProofs.FirstInFirstOut` | shoc/common/accepter_queues.hpp:35-75 | after every script, under any nesting of resumed fibers: never both data and accepters pending, every n-th successful accept got the n-th payload, supplied = delivered ++ pending |
| `AccepterScripts.FlatScript` | shoc/common/accepter_queues.hpp:35-61 | after any script whose fibers do nothing more, in whatever order: the i-th accept got the i-th payload that the script supplies, the rest is queued or waits in order |
| `AccepterScripts.FlatThenDisconnect` | shoc/common/accepter_queues.hpp:35-75 | after such a script, a disconnect and more accepts: queued payloads are still delivered, and exactly the calls beyond the last payload got the error |
| `AccepterScripts.SupplyInlines` | shoc/common/accepter_queues.hpp:52-61 | supplying a waiting accepter is the same as supplying and then performing what its fiber does |
| `AccepterScripts.DisconnectInlines` | shoc/common/accepter_queues.hpp:66-75 | an accepter that waits alone goes on in the middle of the disconnect |
| `AccepterScripts.SupplyRecords` | shoc/common/accepter_queues.hpp:52-61 | what is supplied is recorded, before anything the resumed fiber supplies |
| `AccepterDisconnect.DisconnectAnswersAll` | shoc/common/accepter_queues.hpp:66-75 | after disconnect no accepter is left, and each that waited got one payload or one error in total |
| `AccepterDisconnect.AllGetTheError` | shoc/common/accepter_queues.hpp:66-75 | every accepter that waits at disconnect gets the error if and only if no fiber but that of the last one supplies, among its own operations, before it disconnects |
| `AccepterDisconnect.PayloadInsteadOfError` | shoc/common/accepter_queues.hpp:66-75 | two waiting accepters of which the second gets a payload, because the first supplies when it gets its error |
| `AccepterProofs.ExecKeeps` | shoc/common/accepter_queues.hpp:35-75 | every operation a fiber performs keeps one outcome per accept and the order, outcomes are final, and accepters only leave disconnected queues |
| `AccepterProofs.DrainKeeps` | shoc/common/accepter_queues.hpp:66-75 | the loop of disconnect keeps them and ends, because a resumed fiber cannot queue itself again |
| `AccepterProofs.SupplyStepKeeps` | shoc/common/accepter_queues.hpp:52-61 | supplying, with everything the resumed fiber does inside it, keeps them |
| `AccepterProofs.AcceptStepKeeps` | shoc/common/accepter_queues.hpp:35-47 | accepting keeps them |
| `AccepterProofs.RunKeeps` | shoc/common/accepter_queues.hpp:35-75 | they hold after every script of operations on empty queues |
| `AccepterModel.AccepterQueues.Accept` | shoc/common/accepter_queues.hpp:35-47 | ready with the oldest payload, failed when disconnected, else a space at the end of the queue |
| `AccepterModel.AccepterQueues.Supply` | shoc/common/accepter_queues.hpp:52-61 | queues the payload or serves the longest waiting accepter and resumes it |
| `AccepterModel.AccepterQueues.Disconnect` | shoc/common/accepter_queues.hpp:66-75 | drains the accepters, terminating although fibers re-enter |
| `AccepterModel.AccepterQueues.DismissFirst` | shoc/common/accepter_queues.hpp:69-74 | one round of the loop: fewer accepters wait after it, whatever the resumed fiber did |
| `AccepterModel.AccepterQueues.Resume` | shoc/coro/value_awaitable.hpp:69-83 | a resumed fiber performs its operations on these queues |
| `RemoteConsumers.RegistryIsHistory` | shoc/comch/producer.hpp:87-107 | after any history a consumer object is expired exactly if the first later event about its id is an expiry, and is indexed exactly if there was none |
| `RemoteConsumers.ExpiredIffEvent` | shoc/comch/producer.hpp:47-49 | without reuse of live ids, a consumer is expired if and only if its expiry event has occurred |
| `RemoteConsumers.IndexIsUnexpired` | shoc/comch/producer.hpp:87-107 | without reuse the index holds exactly the supplied consumers that are not expired |
| `RemoteConsumers.ReuseHidesExpiry` | shoc/comch/producer.hpp:87-91 | with reuse the first consumer outlives the expiry of its id |
| `RemoteConsumers.RemoteConsumerQueues.SupplyConsumer` | shoc/comch/producer.hpp:87-91 | a new object is indexed and then supplied; all older objects stay the same |
| `RemoteConsumers.RemoteConsumerQueues.ExpireConsumer` | shoc/comch/producer.hpp:98-107 | exactly the indexed object of that id is expired, wherever it is, and leaves the index; an unknown id changes nothing |
| `TaskProofs.TaskConservation` | shoc/progress_engine.cpp:147-195 | over every interleaving a task is freed at most once, its receptable written at most once, both exactly when the offload is over |
| `TaskProofs.Rendezvous` | shoc/progress_engine.hpp:368-393 | the fiber goes on at most once and only with the stored result; when all is over it has gone on if and only if no answer made a delayed resubmission give up while it was suspended |
| `TaskProofs.UnwokenRun` | shoc/progress_engine.cpp:189-194 | a run in which the error is stored and the suspended fiber never goes on |
| `TaskResults.ResultIs` | shoc/progress_engine.cpp:161-194 | in every run the status of the event that ends the offload is stored, for good: a completion, an error at submission, or the answer that makes a resubmission give up |
| `TaskResults.CompletionReaches` | shoc/progress_engine.hpp:376-392 | the status that the SDK reports with a completion is stored, and is what the fiber goes on with |
| `TaskResults.FailureStored` | shoc/progress_engine.hpp:334-335 | without a task object the failure is stored, for good |
| `TaskResults.NothingBefore` | shoc/progress_engine.cpp:147-195 | nothing is stored or freed before one of these events |
| `TaskResults.InFlightUntilComplete` | shoc/progress_engine.cpp:154-166 | an accepted submission is in flight until its completion |
| `TaskResults.GoesOnOutside` | shoc/progress_engine.hpp:384-392 | the fiber goes on only inside an immediate completion, a posted resume, or its own co_await |
| `TaskResults.SubmissionsCounted` | shoc/progress_engine.cpp:154-189 | there are as many submissions as answers of the SDK |
| `TaskProofs.SubmissionsBounded` | shoc/progress_engine.cpp:147-195 | submissions never exceed immediate attempts + 1 + resubmissions, where zero resubmissions count as 2^32 |
| `TaskProofs.BoundReached` | shoc/progress_engine.cpp:154-189 | against a busy device exactly that many submissions are made |
| `TaskProofs.DocumentedBound` | shoc/progress_engine.cpp:181-189 | immediate attempts + 1 + resubmission attempts is the number of submissions if and only if at least one resubmission is configured |
| `TaskProofs.NeverGivesUp` | shoc/progress_engine.cpp:154-157 | with 2^32 - 1 immediate attempts a busy device is retried forever |
| `TaskProofs.StepKeeps` | shoc/progress_engine.hpp:324-393 | each step keeps conservation and single wake-up, and leaves a fiber unwoken exactly if it gives up a resubmission |
| `TaskModel.Submission.SubmitRepeatedly` | shoc/progress_engine.cpp:151-157 | for every limit the loop submits until an answer other than AGAIN or the limit, whichever is first, with the counter wrapping at 2^32 |
| `TaskModel.Submission.SubmitTask` | shoc/progress_engine.cpp:147-166 | hands over to the timer, the SDK, or the receptable after freeing |
| `TaskModel.Submission.TimerExpired` | shoc/progress_engine.cpp:181-194 | one round of delayed resubmission |
| `TaskModel.Submission.CompletionCallback` | shoc/progress_engine.hpp:368-393 | frees, stores, then resumes at once or posts the resume |
| `TaskModel.Submission.RunPosted` | shoc/progress_engine.hpp:384-389 | the posted resume wakes the fiber with the stored result |
| `TaskModel.Submission.Await` | shoc/coro/value_awaitable.hpp:167-183 | goes on with a stored value, else becomes the waiter |
| `TaskModel.Submission.constructor` | shoc/progress_engine.hpp:324-342 | without a task object the error goes straight into the receptable |
| `TaskModel.Receptable.SetValue` | shoc/coro/value_awaitable.hpp:39-49 | the stored value is the last one written |
| `TaskModel.Receptable.SetWaiter` | shoc/coro/value_awaitable.hpp:61-67 | a second waiter is refused |
| `TaskModel.Receptable.Resume` | shoc/coro/value_awaitable.hpp:69-83 | the waiter, if there is one, goes on with the stored value |
| `EventPump.PumpSound` | shoc/progress_engine.hpp:174-224 | after any sequence of lease operations on any engines, `registered_fibers_` is the number of leases that refer to each, and no pump sleeps uncancelled without fibers and contexts |
| `EventPump.RemovalCondition` | shoc/progress_engine.cpp:81-83 | taking a context away keeps every pump from oversleeping if and only if it is not the last thing a sleeping, uncancelled pump waits for; the runs allow exactly these removals |
| `EventPump.ReturnsUnderLease` | shoc/progress_engine.cpp:85-145 | run() returns under a held lease if and only if, at some moment of its latest wait, there was neither a fiber nor a context |
| `EventPump.LeaseOutlivesPump` | shoc/progress_engine.cpp:110-113 | a run in which the pump has returned although a lease is held |
| `EventHistory.ReturnsExactly` | shoc/progress_engine.cpp:85-128 | a turn of the pump is its last one if and only if it finds neither fiber nor context at the loop condition, or had neither at some moment of the wait it comes from |
| `EventHistory.LeasesAreValues` | shoc/progress_engine.hpp:174-224 | after any run the leases refer to what value semantics of copy and move say, and each engine counts exactly those that refer to it |
| `EventHistory.ContextsExactly` | shoc/progress_engine.cpp:77-83 | in every run an engine's contexts are exactly those that were created on it and not removed since |
| `EventHistory.SleepsUnlessBusy` | shoc/progress_engine.cpp:89-118 | a polling pump never sleeps, another one works only after it has slept |
| `EventPump.StepKeeps` | shoc/progress_engine.cpp:85-145 | each lease operation, context change and turn of the pump keeps both |
| `EventPump.ProgressEngine.RunOnce` | shoc/progress_engine.cpp:85-128 | loop condition, then wait or busy progress; notification; a cancelled pump stops the contexts and returns |
| `EventPump.ProgressEngine.RegisterFiber` | shoc/progress_engine.cpp:130-132 | one lease more is counted |
| `EventPump.ProgressEngine.DeregisterFiber` | shoc/progress_engine.cpp:134-145 | one lease less is counted, never too many, and a sleeping pump with nothing left is cancelled |
| `EventPump.EngineLease.constructor` | shoc/progress_engine.hpp:176-182 | the lease is counted by its engine |
| `EventPump.EngineLease.Clear` | shoc/progress_engine.hpp:219-224 | the engine stops counting this lease and only this one |
| `EventPump.EngineLease.MoveFrom` | shoc/progress_engine.hpp:202-209 | the other lease's count becomes this one's, the former engine stops counting this lease and only this one, self-assignment changes nothing |
| `AesKeys.KeysCounted` | shoc/aes_gcm.cpp:20-111 | `loaded_keys_` is the number of live keys if and only if no key was ever moved onto a live one; every stop found no live key |
| `AesKeys.LastKeyStops` | shoc/aes_gcm.cpp:99-128 | after stop, the step by which the last key goes issues the context's own stop, once, if and only if no key was ever moved onto a live one |
| `AesKeys.StopWithoutKeys` | shoc/aes_gcm.cpp:99-103 | stop itself issues it, once, if and only if no key is live, as long as none was overwritten |
| `AesKeys.OverwrittenNeverStops` | shoc/aes_gcm.cpp:44-48 | once a live key was overwritten, keys are counted forever and no further stop is ever issued |
| `AesKeys.OverwrittenRun` | shoc/aes_gcm.cpp:44-62 | a run with no key left, one still counted, and a stop that does nothing |
| `AesHistory.KeysAreCarried` | shoc/aes_gcm.cpp:20-62 | in every run a key object holds a key if and only if one that was loaded has been carried there by moves, and neither cleared nor overwritten on the way |
| `AesHistory.FlagsAreHistory` | shoc/aes_gcm.cpp:99-128 | in every run a stop is remembered exactly if there was one, and the handle is there until IDLE |
| `AesHistory.NothingUnasked` | shoc/aes_gcm.cpp:99-128 | without a stop none is ever issued |
| `AesKeys.StepKeeps` | shoc/aes_gcm.cpp:20-128 | every load, move, clear, destruction and stop keeps the count and the stop rule |
| `AesKeys.AesGcmContext.LoadKey` | shoc/aes_gcm.cpp:90-97 | a key is counted only when it was created |
| `AesKeys.AesGcmContext.StopContext` | shoc/aes_gcm.cpp:99-103 | the request is remembered and carried out if able |
| `AesKeys.AesGcmContext.SignalDestroyed` | shoc/aes_gcm.cpp:105-111 | one key less, and a requested stop is tried again |
| `AesKeys.AesGcmContext.DoStop` | shoc/aes_gcm.cpp:113-128 | issues the stop only with no key counted and a handle |
| `AesKeys.AesGcmKey.ClearKey` | shoc/aes_gcm.cpp:54-62 | a live key is destroyed and its context told; for every other context, and for an empty key, nothing changes |
| `AesKeys.AesGcmKey.MoveFrom` | shoc/aes_gcm.cpp:44-48 | the key changes hands, as all contexts involved see it; a key held before is lost without its context being told |
| `RdmaCm.WrittenOnce` | shoc/rdma.cpp:386-541 | in every run every connect or listen result is written at most once, and a listener is in `listeners_` exactly as long as it has none |
| `RdmaCm.StepKeeps` | shoc/rdma.cpp:386-541 | every call and callback keeps that, for connectors too |
| `RdmaCm.ListenAnswered` | shoc/rdma.cpp:462-541 | in every run the next establishment or failure on its port answers a waiting listener, it alone, and takes it off `listeners_` |
| `RdmaCm.ListenersServe` | shoc/rdma.cpp:411-427 | as long as anyone listens the role is server |
| `RdmaCm.ConnectAnswered` | shoc/rdma.cpp:510-541 | an event of its connection answers a pending connect if and only if the context does not listen |
| `RdmaCm.ListeningStrandsConnect` | shoc/rdma.cpp:411-427 | a connect that is pending when the context begins to listen is never answered |
| `RdmaCm.ConnectThenListen` | shoc/rdma.cpp:386-427 | such a run exists for every connection and port |
| `RdmaHistory.ListenerGets` | shoc/rdma.cpp:462-500 | in every run the next establishment on its port gives a waiting listener that connection, a failure the abort error |
| `RdmaHistory.ConnectorGets` | shoc/rdma.cpp:462-500 | a pending connect gets them in the same way, if and only if the context does not listen |
| `RdmaHistory.FailedAccept` | shoc/rdma.cpp:429-460 | a failed accept answers the listener with that error, a successful one answers nobody |
| `RdmaHistory.AtMostOneAnswered` | shoc/rdma.cpp:429-541 | an event answers at most one waiter, who had no answer yet |
| `RdmaHistory.CallsAnswered` | shoc/rdma.cpp:386-427 | in every run a connect is refused if and only if a role was taken before, a listen if and only if somebody still waits on that port; else the SDK's error is the answer, and without one the caller waits |
| `RdmaHistory.CallsWait` | shoc/rdma.cpp:397-426 | whoever waits after a call waits for that connection, or on that port |
| `RdmaHistory.RoleIsHistory` | shoc/rdma.cpp:386-427 | in every run the context has a role exactly if it has taken one, and is a server exactly if it has listened |
| `RdmaCm.RdmaContext.ConnectTo` | shoc/rdma.cpp:386-409 | refused unless no role was taken; the error or the attached receptable |
| `RdmaCm.RdmaContext.ListenOn` | shoc/rdma.cpp:411-427 | refused for a port in use; else the role becomes server and the listener is registered |
| `RdmaCm.RdmaContext.ConnectionRequest` | shoc/rdma.cpp:429-460 | a failed accept answers the listener and removes it, a successful one leaves it |
| `RdmaCm.RdmaContext.TakeReceptable` | shoc/rdma.cpp:510-541 | by role: the listener of the port, or what is attached to the connection, taken out |
| `RdmaCm.RdmaContext.ConnectionEstablished` | shoc/rdma.cpp:462-480 | the taken receptable gets the connection |
| `RdmaCm.RdmaContext.ConnectionFailure` | shoc/rdma.cpp:482-500 | the taken receptable gets the error |
| `OnesComplement.FoldTwice` | shoc/eth_frame.hpp:218-219 | two folds of any 32-bit sum give its one's complement sum |
| `OnesComplement.OnesSumIsCanon` | shoc/eth_frame.hpp:214-219 | adding with end-around carry is the same as adding in full and reducing modulo 0xffff |
| `OnesComplement.ByteOrderIndependent` | shoc/eth_frame.cpp:11-19 | on either host byte order the fast form gives the complement of the one's complement sum (section 2(B) of RFC 1071) |
| `OnesComplement.ChecksumVerifies` | shoc/eth_frame.hpp:224-227 | words with the checksum put in sum to all ones |
| `EthChecksum.CalculateHeaderChecksum` | shoc/eth_frame.hpp:208-222 | for every IHL 5..15, content, stale checksum and byte order: the checksum of section 3.1 of RFC 791 |
| `EthChecksum.NegatedStart` | shoc/eth_frame.hpp:212-216 | starting at the negated checksum and wrapping around gives the sum without the checksum word |
| `EthChecksum.UpdateHeaderChecksum` | shoc/eth_frame.hpp:224-227 | only the checksum field changes |
| `EthChecksum.UpdateVerifies` | shoc/eth_frame.hpp:208-227 | after the update the header verifies, and a further update changes nothing |
| `EthChecksum.AddWords` | shoc/eth_frame.hpp:214-216 | the accumulator is the sum of the host-order words, wrapped to 32 bits |
| `EthChecksum.FoldedChecksum` | shoc/eth_frame.hpp:218-221 | folding twice, complementing and converting back gives the complement of the one's complement sum on either host |
| `EthChecksum.StoreBe16` | shoc/eth_frame.hpp:163-171 | a stored 16-bit field is in network order on either host |
| `UdpChecksumModel.AccumulatorFits` | shoc/eth_frame.cpp:4-15 | for every length >= 8 the 32-bit accumulator never wraps, up or down |
| `UdpChecksumModel.CalculateFrom` | shoc/eth_frame.cpp:4-20 | the complement of the one's complement sum of the pseudo-header part and `length` words without the checksum |
| `UdpChecksumModel.CalculateChecksum` | shoc/eth_frame.cpp:22-34 | the same with the pseudo-header folded once and cut to 16 bits |
| `UdpChecksumModel.UpdateChecksum` | shoc/eth_frame.cpp:51-54 | only the checksum field changes |
| `UdpChecksumModel.UdpMatchesRfc768` | shoc/eth_frame.cpp:4-34 | the result is the checksum of RFC 768 if and only if the bytes added from behind the segment sum to 0 modulo 0xffff, or to 1 if the folded pseudo-header does not fit |
| `UdpChecksumModel.UdpOverIpv4` | shoc/eth_frame.cpp:22-34 | with zeros behind the segment it is, if and only if the folded pseudo-header fits 16 bits |
| `UdpChecksumModel.LostCarry` | shoc/eth_frame.cpp:31 | a datagram whose checksum differs from RFC 768 |
| `UdpEcho.EchoIsSound` | samples/eth_udp_echo.cpp:42-62 | for every packet with UDP length >= 8 the reply carries the checksum computed for request and reply alike, its IPv4 header verifies, MAC addresses, IP addresses and ports are exchanged, the identification is one higher with 16-bit wrap, and every other byte is the same |
| `UdpEcho.ChecksumInvariant` | samples/eth_udp_echo.cpp:53-62 | exchanging addresses and ports leaves the computed UDP checksum unchanged |
| `UdpEcho.EchoHeader` | samples/eth_udp_echo.cpp:53-57 | the rewritten header verifies after the identification was counted up, with 16-bit wrap |
| `UdpEcho.EchoInPlace` | samples/eth_udp_echo.cpp:42-62 | the in-place rewrite gives that reply on either host |
| `UdpEcho.TurnAround` | samples/eth_udp_echo.cpp:42-61 | the frame turned around in place, before the UDP checksum is updated |
| `UdpEcho.RewriteHeader` | samples/eth_udp_echo.cpp:48-57 | MAC and IP addresses exchanged, identification + 1, header checksum updated |
| `UdpEcho.SwapRanges` | samples/eth_udp_echo.cpp:48-51 | the two ranges are exchanged and nothing else changes |
| `UdpEcho.SwapAddresses` | samples/eth_udp_echo.cpp:53-55 | the two addresses are exchanged and nothing else changes |
| `UdpEcho.SwapPorts` | samples/eth_udp_echo.cpp:59-61 | the two ports are exchanged and nothing else changes |
| `PackedHeaders.UpdatesRefineIpv4` | shoc/eth_frame.hpp:143-206 | after any in-range setter calls the bytes decode (section 3.1 of RFC 791) to the record with the same updates |
| `PackedHeaders.SetterRefinesIpv4` | shoc/eth_frame.hpp:143-206 | a setter acts like a plain record update if and only if its value is in range |
| `PackedHeaders.SetterEffectIpv4` | shoc/eth_frame.hpp:143-181 | the effect on all fields for every value: cut off, or merged into the neighbour in the same word |
| `PackedHeaders.ReadIpv4` | shoc/eth_frame.hpp:111-123 | on either host the getters read the fields of RFC 791 from the wire |
| `PackedHeaders.SetVersion` | shoc/eth_frame.hpp:143-146 | writes the byte it shares with the IHL as specified, and nothing else |
| `PackedHeaders.SetIhl` | shoc/eth_frame.hpp:148-151 | writes the byte it shares with the version as specified, and nothing else |
| `PackedHeaders.SetDscp` | shoc/eth_frame.hpp:153-156 | writes the byte it shares with the ECN as specified, and nothing else |
| `PackedHeaders.SetEcn` | shoc/eth_frame.hpp:158-161 | writes the byte it shares with the DSCP as specified, and nothing else |
| `PackedHeaders.SetFlags` | shoc/eth_frame.hpp:173-176 | writes the word it shares with the fragment offset as specified, on either host |
| `PackedHeaders.SetFragmentOffset` | shoc/eth_frame.hpp:178-181 | writes the word it shares with the flags as specified, on either host |
| `PackedHeaders.SetWhole` | shoc/eth_frame.hpp:163-206 | each field with a word of its own is stored in network order |
| `PackedHeaders.UpdatesRefineIpv6` | shoc/eth_frame.hpp:259-297 | the same for IPv6 against section 3 of RFC 8200 |
| `PackedHeaders.SetterRefinesIpv6` | shoc/eth_frame.hpp:259-297 | a setter acts like a plain record update if and only if its value is in range |
| `PackedHeaders.SetterEffectIpv6` | shoc/eth_frame.hpp:259-283 | an out-of-range version is cut off, an out-of-range flow label is merged into version and traffic class |
| `PackedHeaders.ReadIpv6` | shoc/eth_frame.hpp:247-252 | on either host the getters read the fields of RFC 8200 from the wire |
| `PackedHeaders.SetVersion6` | shoc/eth_frame.hpp:259-266 | writes the first word as specified, on either host |
| `PackedHeaders.SetTrafficClass` | shoc/eth_frame.hpp:268-275 | writes the first word as specified, on either host |
| `PackedHeaders.SetFlowLabel` | shoc/eth_frame.hpp:277-283 | writes the first word as specified, on either host |
| `PackedHeaders.SetWhole6` | shoc/eth_frame.hpp:285-297 | each field with a word of its own is stored in network order |
| `CompressWindow.CompressInParallel` | samples/parallel_compress.cpp:63-80 | for every timing the output is the sequential one if and only if there are at least as many chunks as slots; chunks are offloaded once in order, awaited once, and a slot is reused only after its chunk was awaited |
| `CompressWindow.CompressSequentially` | samples/simple_compress.cpp:54-67 | the output is each chunk compressed, in order |
| `CompressWindow.InFlightBounded` | samples/parallel_compress.cpp:65-75 | at every moment at most `parallelism` chunks are offloaded and not awaited |
| `CompressWindow.WindowShape` | samples/parallel_compress.cpp:65-75 | awaited chunks are finished, finished ones offloaded, the offloaded ones a prefix, and all a window behind it awaited |
| `CompressWindow.OffloadOne` | samples/parallel_compress.cpp:66-74 | one round of the loop: awaits the chunk in the slot, then takes the slot for the next one |
| `CompressWindow.OffloadAll` | samples/parallel_compress.cpp:65-75 | all chunks are offloaded, and each slot holds the latest chunk with its remainder |
| `CompressWindow.AwaitRest` | samples/parallel_compress.cpp:77-80 | the last window is awaited, slot by slot, and fails exactly at a slot that was never filled |
| `CompressWindow.Collect` | samples/parallel_compress.cpp:99-105 | once all are awaited the destination buffers hold the output in order |
| `CallbackWindow.WindowSafety` | samples/plain_doca/parallel_compress.c:46-146 | for any completion order, even with failing offloads: blocks are submitted once in index order, at most four in flight, no region written twice, the stop requested exactly once if all blocks are complete and not otherwise |
| `CallbackWindow.WindowProgress` | samples/plain_doca/parallel_compress.c:140-145 | without failures and with at least one block, a completion is owed until the stop is requested |
| `CallbackWindow.WindowFull` | samples/plain_doca/parallel_compress.c:97-146 | without failures the window is as full as the remaining blocks allow |
| `CallbackWindow.NeverStarts` | samples/plain_doca/parallel_compress.c:106-112 | without blocks, or if all first offloads fail, nothing is in flight and no stop is requested |
| `CallbackWindow.CompressionState.OffloadNextBlock` | samples/plain_doca/parallel_compress.c:46-95 | the next block is submitted and counted, or nothing changes |
| `CallbackWindow.CompressionState.StateChangedToRunning` | samples/plain_doca/parallel_compress.c:97-114 | up to four attempts, no more than there are blocks |
| `CallbackWindow.CompressionState.CompletedCallback` | samples/plain_doca/parallel_compress.c:116-146 | the block's region is written, then the next offload or the stop |
| `ErasureRecovery.RecoverFile` | samples/erasure_recover.cpp:108-140 | for every sorted, duplicate-free list of missing indices no longer than the redundancy, the recovered file holds the original data blocks in order |
| `ErasureRecovery.LoadAvailable` | samples/erasure_recover.cpp:38-66 | the storage holds the first blocks of the file that are not ignored, as many as there are data blocks or as there are left |
| `ErasureRecovery.MergeBlocks` | samples/erasure_recover.cpp:82-106 | each block is taken from the recovered or the available ones, each of them in order |
| `ErasureRecovery.MergedOriginal` | samples/erasure_recover.cpp:98-106 | that merge is the sequence of data blocks that was encoded |
| `ErasureRecovery.DumpBlocks` | samples/erasure_encode.cpp:55-69 | data and redundancy blocks are written with consecutive indices |
| `ErasureRecovery.EnoughKept` | samples/erasure_recover.cpp:46-65 | as many blocks as there are data blocks remain if no more are missing than are redundant |

## Left out

- DOCA calls, epoll, timers and Boost.Cobalt are environment steps; what they answer is a parameter.
- Fibers that `server_connection::signal_disconnect`, `server::connection_callback` and the IDLE callbacks resume
  synchronously act as later events in the runs of the server; what they can do to the loops they interrupt is proved
  in `ServerReentry`, and re-entrant resumption is part of the model of the accepter queues.
- ServerModel.ServerConnection.SignalDisconnect: does not disconnect the two queues, whose own behaviour is proved in `AccepterDisconnect`, and does not resume the waiter of `disconnect()`, which is the same rendezvous as that of a context's stop.
- ServerModel.Server.ConnectionCallback: does not supply the new connection to the accepter queue, whose own behaviour is proved in `AccepterProofs`.
- ServerSafety.StopNotForgotten: does not count repeated stops, because a repeated stop changes nothing; `LastConnectionStops` says that the last connection triggers a new one.
- Object lifetime: use of objects after their destruction, iterators invalidated by rehashing, exception texts, logging.
- TaskModel.Submission.SubmitTask: with 2^32 - 1 immediate attempts, covers the calls that return; those against a device that is busy for ever do not (`NeverGivesUp`).
- TaskProofs.Rendezvous: one fiber awaits, once, and its awaitable outlives a posted resume.
- UdpChecksumModel.CalculateChecksum: requires twice the segment's length to be readable, because the code reads that far; the substitution of all ones for a zero checksum is not made by the code.
- RdmaCm.WrittenOnce: speaks of results, not of wake-ups; the error of a failed accept is stored without a resume.
- RdmaCm.RdmaContext.ConnectTo: the user data that the SDK keeps for a connection, and what receptables hold, are ghost state of the context.
- ErasureRecovery.LoadAvailable: requires at least one data block, because the code writes the first available block before it looks at the count.
- ErasureRecovery.RecoverFile: takes from the hardware that it yields the missing blocks in ascending order from the first available ones; JSON and base64 are not modelled.
- EventPump.EngineLease.MoveFrom: copy assignment is part of the specification only (`CopyAssign`), not a method of the class.
- EventPump.ProgressEngine.RunOnce: unexpected system errors of the wait are not modelled.
- PackedHeaders.ReadIpv6: the addresses are plain arrays of bytes that share no word and are not part of the record.
- UDP over IPv6 checksums: the code mixes byte orders in one sum.
- `compress_error_callback` of the plain-DOCA sample, and `samples/dma_client.cpp`, whose loop awaits one slot late.
- `unique_scoped_context`, `devemu_pci`, and the thin wrappers for flow, devices, memory maps, buffers, sync events, SHA, DMA, compression, erasure coding and Ethernet queues.
