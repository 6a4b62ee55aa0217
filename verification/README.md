# k8s-explore: verified model of the stream, tunnel and pool logic

This project models four parts of k8s-explore in Dafny and proves what they guarantee.

**The websocket RPC call protocol** (`api/stream/stream.go`, `api/stream/rpc/rpc.go`). `CallProtocol`
is a transition system over any number of connections and tasks. Each connection has a read loop with
its reader goroutines; each decoded frame starts a task, that is a handler goroutine and a writer
goroutine joined by the unbuffered `reply` channel; all tasks share `activeCalls` and `activeLock`.
`Enabled` says when a goroutine can take a step (a goroutine blocked on a lock, a channel or a context
cannot), `Next` what the step does. A run is any sequence of enabled steps from the initial state, and
every result below is about all runs. `CallOrder` reads the same runs goroutine by goroutine, as the source
text from top to end. `StreamServer.Server` is the same system as a mutable object with
one method for each atomic step; its ghost field `history` is the run so far, and every method's
contract says that the fields then hold the state that run leads to. `Replay` shows that the object can
perform every run; `Drain` and `Shutdown` drive it, through those methods, to the end of every task, by one
schedule where `ShutdownDrains` speaks of all.

A call handler is an abstract process: while it runs it may send, wait for its context, or return; while
it waits, an event it subscribed to may send. Its contract is that it sends only before `Handle` returns.

**The frpc supervisor** (`frp/notify/cancellation_channel.go`, `frp/manager.go`, `frp/frpc_client.go`).
`Cancellation` interleaves any number of callers of one cancellation channel; `Supervisor` puts one such
channel into each incarnation of the frp client and interleaves the manager, the watchers, the runners
and the callers, down to the single reads and writes of `err`, the result variable of `Execute` that its
goroutine captures; `SupervisorOrder` reads its runs goroutine by goroutine. The kill signal, port probes, and the moment and error with which a service ends are
chosen by the environment. `FrpManager.Manager` and `Cancellation.CancellationChannel` are the objects;
`Manager` too can replay every run, and `Finish` drives a killed manager to its exit where that is possible.

**Ports and the FRP configuration** (`kubetunnel/kubetunnel_resource.go`, `kubefwd/kube/utils.go`,
`createToml`). `PortsCodec`, `Decimal` and `FrpPairs`. The order in which Go visits a map is a
parameter, so a result for all orders is a result for every execution.

**The client pool** (`kubeclient/pool.go`, `initKubeClientPool`, `contexts.List`). `ClientPool`. What the
API server answers for each context is a parameter.

## Where the code differs from its intent

- `api/stream/stream.go:86` decodes `{type}` into a struct passed by value, which always fails. The model
  keeps this as a parameter, `Config.decodesIntoPointer`. As the code stands it is false, and then no run
  ever starts a task (`NothingDispatchedWithoutPointer`). The other results hold for both values.
- Two calls may reuse an ID. Then a finishing call can delete another call's entry
  (`ReusedIdLosesACall`); `ExactRunIff` says exactly which runs keep the registry exact.
- A channel is closed before `svr.Close` is called, so two services can be live (`TwoServicesCanBeLive`);
  `OneLiveThroughoutIff` says exactly in which runs that never happens. What always holds is one open
  channel at a time.
- After a kill the watcher leaves without cancelling, and a manager in its port wait still starts one more
  incarnation, so `RunFRPc` may not return (`KillCanStrand`). `KilledManagerExitsIff` says exactly from
  which killed states it can without help from the service it waits for, `CanExitAfterIff` that only the
  end of that service changes this, and `KilledManagerExitsAidedIff` that with it every manager that has
  not panicked, nor is bound to, can exit.
- The goroutine of `Execute` stores the result of `svr.Run` in the variable that `return cancelChan, nil`
  sets. An error can be lost (`RunErrorCanBeLost`), or be returned by `Execute` so that the manager panics
  over a started service (`StartedServiceCanPanic`). `RunnersError` says exactly when the error survives,
  `ManagerPanicsIff` exactly when the manager panics.
- `Reason` is written after the close and by every `CancelWithReason` (`ReasonIsLateAndLastWriterWins`), so
  a woken waiter need not find what the closer gave. `ReasonIsLastWriters` says what it finds,
  `ReasonIsClosersIff` when that is what the closer gave, and `IncarnationReasonIsClosersIff` when it is for
  the runner and the watcher of an incarnation. Nothing in the repository reads `Reason` yet.
- When the requested context is not usable, which one becomes current can depend on map order
  (`CurrentIndependentIff`).
- The ports codec loses the empty list, commas, and quotes at the ends of values (`RoundTripIff`).
- A local port that is the empty string drops its pair (`MappedPortsKeptIff`), and two local ports for one
  remote port make the result depend on map order (`OrderIndependentIff`).

## Model

| member | source | states |
|---|---|---|
| CallInvariants.Reachable | api/stream/rpc/rpc.go:54-98 | in every run each lock is owned exactly by the goroutine inside its critical section, and each task's pc, replies, context and close count fit its kind of call |
| CallInvariants.InvStep | api/stream/stream.go:77-156 | every single step of every goroutine keeps that invariant |
| CallRegistry.EntriesAreCallsInFlight | api/stream/rpc/rpc.go:65-95 | with no assumption on IDs, an entry of activeCalls belongs to a task whose frame is a call with that ID and a registered method, between its insertion and deletion, that no .cancel has found |
| CallRegistry.NoStaleEntries | api/stream/rpc/rpc.go:87-95 | activeCalls is empty whenever no call is in flight |
| CallRegistry.ExactStepIff | api/stream/rpc/rpc.go:65-95 | a step keeps every abortable call under its ID if and only if it does not insert over, or delete, another call's entry |
| CallRegistry.ExactRunIff | api/stream/rpc/rpc.go:65-95 | a run keeps the registry exact throughout if and only if none of its steps does that |
| CallRegistry.UniqueIdsKeepExact | api/stream/rpc/rpc.go:87-95 | IDs unique from registration to deregistration, across all connections, keep the registry exact |
| CallRegistry.ExactIsTheMapOfCalls | api/stream/rpc/rpc.go:65-95 | in an exact state activeCalls is exactly the abortable calls, each under its own ID |
| CallRegistry.CancelAbortsExactlyItsCall | api/stream/rpc/rpc.go:65-76 | in an exact state the map operation of a frame whose method is .cancel aborts the abortable call with the frame's ID and changes no other task, deletes its entry, and goes on to reply ok |
| CallRegistry.CancelStepInUniqueRun | api/stream/rpc/rpc.go:65-76 | the same, abort, deleted entry and ok reply, for every .cancel frame in every run with unique IDs |
| CallRegistry.ReusedIdLosesACall | api/stream/rpc/rpc.go:93-95 | a run in which a reused ID leaves a running call without an entry |
| CallCancellation.CancelledIff | api/stream/rpc/rpc.go:68-85 | in every run a call's context is cancelled if and only if some step cancelled its connection or was a .cancel that found the call |
| CallCancellation.ConnHistory | api/stream/stream.go:67-92 | a connection is cancelled if and only if some step of the run was its loop's exit, its parent's cancellation, or a writer's cancel after a failed write |
| CallCancellation.AbortHistory | api/stream/rpc/rpc.go:65-70 | a call is marked aborted if and only if some step of the run was the map operation of a frame with method .cancel whose ID was the call's key |
| CallOrder.HandlerOrder | api/stream/rpc/rpc.go:54-98 | in every run the steps of a handler are, in order, those that lead in its source text, along the branch its frame decides, to where it is |
| CallOrder.ClosedHandlerDidAll | api/stream/stream.go:129-143 | when reply is closed they are the whole text: for .cancel lookup, decode, lock, map operation, ok, unlock, close; for a registered method lock, insert, unlock, the handler, lock, delete, unlock, close |
| CallOrder.WriterOrder | api/stream/stream.go:144-156 | the steps of a writer are turns of message, lock, one attempt, cancel exactly if it failed, unlock, and it ends between turns |
| CallOrder.LoopOrder | api/stream/stream.go:77-96 | the steps of a read loop are turns of read, receive, handle, and after it left the cancel and then the close of the socket |
| CallOrder.LoopLeavesForCause | api/stream/stream.go:79-82 | a loop has left only in a step that saw its context cancelled, or that handled a close or an error as the last result it received |
| CallOrder.WakesOnlyWhenCancelled | api/stream/rpc/kube/objects/watch.go:142 | a waiting call handler goes on only after a step cancelled its connection or a .cancel found it |
| CallOrder.RegistryIsHistory | api/stream/rpc/rpc.go:65-95 | in every run activeCalls is what its map operations, read off the frames and their order alone, leave |
| CallDelivery.DeliveredInOrder | api/stream/stream.go:137-156 | in every run a task's write attempts on its socket are an in-order prefix of what its handler sent, at most one short, equal when its writer is idle or ended, failures or not; no other socket carries them |
| CallDelivery.OfferedIsDelivered | api/stream/rpc/rpc.go:54-98 | conservation in every run: the messages that the run's own steps made a task's handler offer are, in order and once each, its write attempts, then the one its writer holds, then the one still offered |
| CallDelivery.FinishedTaskWrote | api/stream/rpc/rpc.go:54-98 | by its frame a finished task wrote: for a .cancel exactly one ok with its ID, for an unregistered method exactly one Unknown method error, for no call nothing, and for a registered method what its handler and events offered |
| CallDelivery.OnlyFailedWritesCancel | api/stream/stream.go:149-155 | a writer cancels its connection only when its own latest attempt on the socket failed |
| CallDelivery.FailedWritesCancel | api/stream/stream.go:149-155 | a failed attempt has cancelled its connection by the next attempt and whenever the write lock is free |
| CallDelivery.ReplyClosedOnce | api/stream/stream.go:137-143 | reply is closed at most once, and not before or during a send |
| CallDelivery.NothingSentAfterClose | api/stream/stream.go:137-146 | after the close the rest of any run adds no message |
| CallProgress.CancelSenderHasReadyWriter | api/stream/rpc/rpc.go:66-75 | a .cancel that sends while it owns activeLock finds its own writer at receive |
| CallProgress.HolderNeverWaits | api/stream/rpc/rpc.go:65-95 | the owner of activeLock can always step, even while it sends |
| CallProgress.WriteHolderNeverWaits | api/stream/stream.go:149-156 | the owner of a msgWriteLock can always step, so it never waits for activeLock |
| CallProgress.DeadlockFree | api/stream/rpc/rpc.go:65-95 | in every reachable state some task step is enabled if and only if some task is neither finished nor parked on a live context with everything delivered |
| CallProgress.StepLowersMeasure | api/stream/stream.go:129-156 | after all loops exited every task step strictly lowers one measure over all tasks, and no other step raises it |
| CallProgress.ShutdownDrains | api/stream/stream.go:92-146 | after all loops exited a run has at most that many task steps, and is out of steps exactly when all tasks finished, all they sent was tried on the wire, activeCalls is empty and every lock free |
| CallProgress.ShutdownCanDrain | api/stream/stream.go:92-146 | from every such state some run reaches that end without any further choice of a call handler |
| CallProgress.ClosedAfterCancel | api/stream/stream.go:92-95 | a socket is closed exactly when its loop exited, and only after its context was cancelled |
| CallProgress.CancelledLoopCanExit | api/stream/stream.go:98-127 | the loop of a cancelled connection can exit within five steps of its own |
| CallProgress.LoopStepsBounded | api/stream/stream.go:78-127 | from any point of any run a loop takes at most six steps of its own plus three for each result then read from its socket, and a cancelled loop can step until it has exited |
| ReadLoop.OneReadOutstanding | api/stream/stream.go:98-127 | a reader that has not delivered is the latest one, and the loop is selecting on it or has left |
| ReadLoop.LeftReaderStaysParked | api/stream/stream.go:105-123 | once a loop has left, nothing is ever received from its readers, no read starts and no task is dispatched |
| ReadLoop.DispatchedArePrefixOfRead | api/stream/stream.go:77-91 | the dispatched frames are exactly the decodable ones of a prefix of the results read, missing at most the last |
| ReadLoop.OneTaskPerDispatch | api/stream/stream.go:90 | dispatched frames and tasks of a connection correspond one to one |
| ReadLoop.NothingDispatchedWithoutPointer | api/stream/stream.go:83-89 | with the decoding as written no run ever starts a task |
| StreamServer.Server.CancelContext | api/stream/stream.go:67 | cancels the connection's context and exactly the live contexts derived from it |
| StreamServer.Server.Drain | api/stream/stream.go:129-156 | once all loops have exited the object's steps finish every task, with no choice of a call handler and in no more steps than the measure of its state, and leave it drained |
| StreamServer.Server.CloseConnection | api/stream/stream.go:92-127 | cancelling a connection lets its loop exit within five more steps, in whatever state it is, and moves no other loop |
| StreamServer.Server.Shutdown | api/stream/stream.go:92-156 | from every reachable state all connections can be closed and the server drained: every task finished, all that was sent tried on the wire, activeCalls empty, every lock free |
| StreamServer.Replay | api/stream/stream.go:77-156 | the object can perform every run of the transition system, and then holds the state that run leads to |
| Cancellation.CancelsOnce | frp/notify/cancellation_channel.go:31-43 | for any number of concurrent callers the channel closes at most once, the callback runs at most once and after the close, and whoever left once.Do finds both done |
| Cancellation.StaysCancelled | frp/notify/cancellation_channel.go:45-56 | a cancelled channel stays cancelled through every continuation |
| Cancellation.CallersProgress | frp/notify/cancellation_channel.go:31-38 | while a caller has not returned, the caller it waits for can step |
| Cancellation.AllCanReturn | frp/notify/cancellation_channel.go:31-43 | all present callers can return, in boundedly many steps, and that leaves the channel cancelled with the callback run once |
| Cancellation.ReasonIsLastWriters | frp/notify/cancellation_channel.go:40-43 | after every run Reason is the error of the CancelWithReason caller that wrote last, which has returned, and unchanged if none wrote |
| Cancellation.WritesOnce | frp/notify/cancellation_channel.go:40-43 | in every run each CancelWithReason that has returned assigned Reason exactly once, whether it closed the channel or not, and nobody else ever did |
| Cancellation.ReasonIsClosersIff | frp/notify/cancellation_channel.go:31-43 | after the close Reason is what the closer gave if and only if the last writer gave the same, or nobody wrote and the closer gave nothing; nobody writes before the callback is done |
| Cancellation.ReasonIsLateAndLastWriterWins | frp/notify/cancellation_channel.go:40-43 | a run with a closed channel and no Reason yet, that ends with the Reason of a caller that did not close it |
| Cancellation.SoloIsARun | frp/notify/cancellation_channel.go:31-43 | an uninterrupted call of either method has exactly the effect stated for the object |
| Cancellation.CancellationChannel.constructor | frp/notify/cancellation_channel.go:12-25 | a fresh channel, with or without callback |
| Cancellation.CancellationChannel.Cancel | frp/notify/cancellation_channel.go:31-38 | first call: closes once and calls back once; later calls change neither; Reason is kept |
| Cancellation.CancellationChannel.CancelWithReason | frp/notify/cancellation_channel.go:40-43 | as Cancel, and Reason is the given error even when this call closed nothing |
| Cancellation.CancellationChannel.DoOnce | frp/notify/cancellation_channel.go:32-37 | the once function runs exactly on the first entry |
| Cancellation.CancellationChannel.IsCancelled | frp/notify/cancellation_channel.go:45-56 | true exactly if the channel is closed |
| Supervisor.OneOpenIncarnation | frp/manager.go:31-44 | in every run only the latest incarnation can have an open channel, and only from its start to the manager's wake-up or if Execute panicked over it; no Close runs twice or before its close |
| Supervisor.StartsAfterCancellation | frp/manager.go:35-44 | an incarnation starts only when all earlier channels are closed |
| Supervisor.OnlyOwnGoroutinesCancel | frp/manager.go:62-75 | the step that closes a channel is by its own watcher or runner, and changes nothing but the channel's closed state and where that caller is |
| SupervisorOrder.WatcherOrder | frp/manager.go:62-75 | in every run a watcher polls while it sees no kill, an open channel and an available port, and cancels exactly after it saw, in this order, the port gone, no kill and the channel open |
| SupervisorOrder.CancelsAfterFailedProbe | frp/manager.go:68-74 | a watcher that cancels has probed, and its last probe found the port gone |
| SupervisorOrder.FailedProbeLeadsToCancel | frp/manager.go:68-74 | conversely, unkilled and with an open channel, a watcher whose last probe failed reads the kill signal, then the channel, and is then a canceller |
| SupervisorOrder.ManagerOrder | frp/manager.go:29-60 | in every run the manager does what RunFRPc and its port wait say, in that order, and what it saw decides where it is |
| SupervisorOrder.ExecutesOnlyWithPort | frp/manager.go:57 | an unkilled manager calls Execute only right after a probe that found the port available |
| SupervisorOrder.ExitsOnlyKilled | frp/manager.go:31 | the manager exits only after the kill signal was given, which is remembered from then on and from nothing else |
| Supervisor.ChannelRun | frp/frpc_client.go:33-40 | on each incarnation's channel every run of the supervisor is a run of the cancellation channel |
| Supervisor.RunnersError | frp/frpc_client.go:37-42 | in every run a runner gives as its reason the error svr.Run came back with, except that it gives nil exactly if Execute's return set err in between |
| Supervisor.RunErrorCanBeLost | frp/frpc_client.go:38-42 | a run in which svr.Run fails and its runner gives nil |
| Supervisor.ReasonOfIncarnation | frp/manager.go:72-74 | in every run an incarnation's Reason is unset until written; written last by the watcher it is that of the missing port, by the runner the error svr.Run came back with, or nil exactly if Execute's return set err in between |
| Supervisor.IncarnationReasonIsClosersIff | frp/frpc_client.go:37-40 | after the close it is what the closer, runner or watcher, gave if and only if the closer wrote last, or the other one gave the same, or nobody wrote and the closer's error is nil |
| Supervisor.BoundedWorkAfterKill | frp/manager.go:31-60 | once killed, every run starts at most one more incarnation, and none unless the manager was past its loop test |
| Supervisor.KilledManagerCanStartOne | frp/manager.go:51-60 | that bound is met even if the port is never found available |
| Supervisor.TwoServicesCanBeLive | frp/frpc_client.go:33-40 | a run with two services live at once |
| Supervisor.OneLiveThroughoutIff | frp/frpc_client.go:33-40 | at most one service is live throughout a run if and only if no start of the run finds the service of the latest incarnation live |
| Supervisor.KillCanStrand | frp/manager.go:62-75 | a run after which the killed manager waits for an incarnation nobody will cancel |
| Supervisor.StrandedUntilServiceEnds | frp/manager.go:44-75 | a killed manager that waits, or is about to, for a channel nobody is going to close stays so exactly as long as that service does not end by itself |
| Supervisor.KilledManagerExitsIff | frp/manager.go:31-75 | from a killed state some run without the end of the awaited service exits if and only if the manager has not panicked, is not bound to, and is not on its way to one more start, and the channel it waits for is closed, has a caller, or has a runner whose service has ended or a watcher past its last read of the kill signal |
| Supervisor.CanExitAfterIff | frp/manager.go:31-75 | after a kill a manager that could not so exit comes to be able to exactly when the service it waits for ends |
| Supervisor.KilledManagerExitsAidedIff | frp/manager.go:31-75 | if that service may end, a killed manager can exit if and only if it has not panicked and is not bound to |
| Supervisor.ManagerPanicsIff | frp/frpc_client.go:37-42 | in every run the manager panics, or is bound to, if and only if Execute failed before its goroutine or the service failed between the two halves of Execute's return |
| Supervisor.StartedServiceCanPanic | frp/frpc_client.go:37-42 | a run in which the manager panics although Execute started its service |
| FrpManager.Manager.Finish | frp/manager.go:31-49 | under the condition of KilledManagerExitsIff the object's steps bring a killed manager to its exit, without a further start or the end of any service |
| FrpManager.Replay | frp/manager.go:29-75 | the object can perform every run of the transition system, and then holds the state that run leads to |
| Decimal.ItoaReadBack | kubefwd/kube/utils.go:20 | every integer can be read back from its decimal string |
| Decimal.ItoaInjective | kubefwd/kube/utils.go:44 | different ports have different decimal strings |
| Decimal.ItoaIsNumeral | kubefwd/kube/utils.go:20 | a decimal string has no superfluous zero, and a sign exactly if the integer is negative |
| Decimal.ItoaOfAtoi | kubefwd/kube/utils.go:44 | every such numeral is the decimal string of the integer it denotes |
| Decimal.ItoaDigits | kubefwd/kube/utils.go:44 | its last digit is the remainder by ten, the rest the decimal string of the quotient |
| PortsCodec.SplitJoin | kubetunnel/kubetunnel_resource.go:30-44 | splitting a joined non-empty list of comma-free values gives the list back |
| PortsCodec.JoinSplit | kubetunnel/kubetunnel_resource.go:30-44 | joining the pieces of a split string gives the string back |
| PortsCodec.EncodeText | kubetunnel/kubetunnel_resource.go:53-55 | the encoded text is in quotes, splits between them into any comma-free list, and has nothing to escape between them if no value has |
| PortsCodec.DecodeEncode | kubetunnel/kubetunnel_resource.go:40-55 | decoding an encoding trims the pieces of the joined values, whatever they contain |
| PortsCodec.RoundTripIff | kubetunnel/kubetunnel_resource.go:40-55 | a list survives the codec if and only if it is non-empty and no value has a comma or a quote at an end |
| PortsCodec.NormalisesOnce | kubetunnel/kubetunnel_resource.go:40-55 | for every list one pass gives a list that all further passes keep |
| PortsCodec.EmptyBecomesOneEmpty | kubetunnel/kubetunnel_resource.go:40-55 | the empty list becomes one empty string |
| PortsCodec.ServicePortsRoundTrip | kubefwd/kube/utils.go:15-30 | a service's ports pass through spec and codec unchanged, and can be read back as integers, if and only if there is one |
| PortsCodec.Ports.MarshalJSON | kubetunnel/kubetunnel_resource.go:53-55 | the text is in quotes, between them splits into the values if they are a non-empty comma-free list, and is one JSON string if no value needs escaping |
| PortsCodec.Ports.UnmarshalJSON | kubetunnel/kubetunnel_resource.go:40-51 | the old values followed by the decoded ones |
| PortsCodec.Transfer | kubetunnel/kubetunnel_resource.go:40-55 | the decoded value is canonical, and equal to the encoded one exactly if that was |
| FrpPairs.AnyOrderInverts | kubefwd/kube/utils.go:36-40 | visited in any order the port map comes out inverted: every remote port, each with a local port mapped to it |
| FrpPairs.EveryInversionHasAnOrder | kubefwd/kube/utils.go:36-40 | and every such choice comes from some order |
| FrpPairs.PairsAreASelection | kubefwd/kube/utils.go:42-64 | the pairs are an in-order selection of the service's ports, each with a local port mapped to it; the ports passed over are exactly the unmapped ones and those whose chosen local port is empty |
| FrpPairs.NoPairsIff | kubefwd/kube/utils.go:42-64 | there is no pair if and only if every port of the service is unmapped or has the empty string as its chosen local port |
| FrpPairs.MappedPortsKeptIff | kubefwd/kube/utils.go:46-50 | no order drops a mapped port if and only if no port of the service is mapped from the empty local port |
| FrpPairs.OrderIndependentIff | kubefwd/kube/utils.go:36-64 | the pairs do not depend on the order if and only if no port of the service is mapped from two local ports |
| FrpPairs.ToFRPClientPairs | kubefwd/kube/utils.go:32-67 | the loops compute the pairs of the inverse that the given order leaves |
| FrpPairs.CreateSections | frp/frpc_client.go:45-53 | the loop builds the section map of the pairs over the common section |
| FrpPairs.NoSectionLostIff | frp/frpc_client.go:45-53 | for any pairs, no section is lost if and only if no pair is named common and no two pairs of one name differ |
| FrpPairs.PipelineKeepsSections | frp/frpc_client.go:45-53 | for the pairs of any service and any order no section is lost, and there is one more than there are distinct ports selected |
| FrpPairs.ToKubeTunnelResourceSpec | kubefwd/kube/utils.go:15-30 | the spec shares the caller's label map, which changes at the kubetunnel key only |
| ClientPool.Pool.constructor | kubeclient/pool.go:23-25 | an empty pool without a current context |
| ClientPool.Pool.Add | kubeclient/pool.go:27-62 | on failure nothing changes; on success exactly this context is added, current if it is the first |
| ClientPool.Pool.SetCurrent | kubeclient/pool.go:64-72 | a known name becomes current, an unknown one is an error that changes nothing |
| ClientPool.Pool.Lookup | kubeclient/pool.go:88-95 | the pooled context of that name, or an error |
| ClientPool.Pool.Contexts | kubeclient/pool.go:78-86 | every pooled context, in the order visited |
| ClientPool.LoadContexts | main.go:128-152 | after the loop the pool holds exactly the usable contexts, the first of them current, and the requested name is forgotten exactly if it was tried and not usable |
| ClientPool.InitKubeClientPool | main.go:117-162 | the flag, or if empty the kubeconfig, requests a context; succeeds exactly if some context is usable and the requested one, if any, is configured; then the pool is the usable contexts as described, and current is the requested one if usable, else the first usable one visited; otherwise which error |
| ClientPool.CurrentIndependentIff | main.go:122-161 | the current context, or the error, is the same for every two orders if and only if the requested context is usable or not configured, or at most one context is usable |
| ClientPool.List | api/rest/kube/contexts/contexts.go:32-45 | one view per pooled context, as pooled, and exactly one of them marked as current |

## Left out

- REST handlers for objects, resources and environments: thin calls into client-go.
- Host-file editing, informers, port forwarding, RBAC and custom-resource calls: they rest on libraries and the API server.
- WatchHandler at shutdown: its informer callbacks can send after Handle returned, against the handler contract. Delivery, reply closing, deadlock freedom and shutdown all assume that contract.
- A write that never returns: stream.go sets no write deadline, so a stalled peer can hold msgWriteLock for ever. Deadlock freedom and shutdown assume that conn.WriteMessage returns, with or without an error.
- JSON, TOML and websocket framing: a frame is what its two decodings return; json.Marshal's own validation of what MarshalJSON returns is not part of this model.
- Message handlers other than the RPC call dispatcher: main registers no other.
- The address in the watcher's error text.
- MarshalYAML and KubeTunnelServiceName: one-line formats.
- msgReadLock: only the read loop takes it, so it is never contended.
- Fairness: that a goroutine which can step gets its turn is not part of the model; LoopStepsBounded and the shutdown measure bound the number of turns that are needed.
- Real time and initKubeClientPoolWithRetry: each attempt leaves the last visited name in the flag, as InitKubeClientPool states.
- Data races, such as SetCurrent writing under a read lock: pool operations are atomic steps, and so is each single read and write of err and of Reason.
- An empty pair list: WaitForLocalPortToBecomeAvailable indexes its first element and would panic; the supervisor assumes one pair. NoPairsIff says when the list is empty.
- The end of the process: after a panic of the manager the model lets the other goroutines go on.
- The memoised clients of a pooled context: only whether a dynamic client can be made matters here.
- A nil label map: ToKubeTunnelResourceSpec panics on it in Go; the model's label map always exists.
- Logging, request IDs, command line and process exit.
