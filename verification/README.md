# A verified model of SRF

SRF is a runtime for streaming dataflow pipelines. This project models the parts of it that decide
whether data arrives and whether a pipeline ever stops, and proves properties of them in Dafny 4.11.
Run `dafny verify dfyconfig.toml` to check it.

Most modules have the same shape. The source's objects are classes whose methods are proved against
step functions on values. A run is any finite sequence of steps, in any order; a step that is not
possible leaves the state alone, so a theorem about all sequences covers every interleaving and every
schedule. Where a promise turned out not to hold of the code, the project proves exactly when it does
hold, and a lemma beside that theorem gives the smallest input on which it does not.

| file | what it is about |
|---|---|
| ThreadBarrier | the one-bit cyclic barrier, under reuse by any number of threads, and the rendezvous it implements |
| Dataflow, DataflowSafety | a running graph: sources, nodes and sinks, several instances each, bounded channels, reference-counted edges; what every step keeps |
| DataflowOrder | the order of a node's callbacks at shutdown |
| DataflowLiveness | shutdown cascades through the graph and every run ends |
| DataflowDelivery, DataflowEndToEnd | exactly-once delivery on every edge, and through a whole graph |
| DataflowEmission, DataflowPaths | what operators emit is what is written; order along a path of single-instance nodes |
| DataflowBarriers, DataflowEdges | the graph's barriers are the rendezvous of ThreadBarrier, and its edges those of SinkChannels and SourceChannels |
| SinkChannels, ChannelLives, SourceChannels | the two ends of an edge, the life of a channel told from what is done to it, and making, refusing and releasing edges |
| ProgressEngine | the loop that reads a channel until it is closed, as steps of the running graph |
| Services, Pipelines | the service life cycle, and the controller that creates, stops and starts segments |
| Manifolds, LoadBalancers | the round-robin egress, and the balancer as a node of the running graph and part of a pipeline |
| RecentChannels | the channel that drops its oldest value |
| EngineAllocation | handing out cpus and fiber queues, engines and contexts |
| Registry, Architect | the control plane's worker registry and its two-phase update |
| Buffers, Narrowing | ownership of memory blocks, and the edge builder's narrowing test |
| Bags, Cyclic, Finite, Options | sums of multisets, going round a list, finite sets, optional values |

## Where the code and its documentation differ

The model follows the code.

- `include/srf/options/engine_groups.hpp:45-46` says that cpus of a pool that is not reusable go to a
  single set of engines only. The thread factory starts over after a request that fails
  (`EngineAllocation.ThreadsSingleUseExactly`, `EngineAllocation.ThreadGrantedTwice`), and the fiber
  factory never moves its offset (`EngineAllocation.FibersSingleUseExactly`,
  `EngineAllocation.FiberGrantedTwice`).
- `src/internal/service.cpp:106` says that the state only advances. `service_await_join` sets it back
  (`Services.AdvancesExactly`, `Services.StopThenJoinGoesBack`).
- `src/internal/pipeline/controller.cpp:122-131` stops the segments that are gone and then starts all
  segments it still owns, the stopped ones among them, which a check forbids. So a request that drops
  an address ends the process, and so does any request once a segment has been stopped, killed or
  joined (`Pipelines.SurvivesExactly`, `Pipelines.DroppingFails`).
- `include/srf/node/source_channel.hpp:78-84` refuses a second edge from one source. By then the edge
  builder holds an ingress of the sink; letting go of it closes the channel of a sink that nobody else
  is connected to (`SourceChannels.RefusalClosesExactly`, `SourceChannels.RefusalClosesNewSink`).
- `include/srf/node/edge_builder.hpp:46-48` calls a conversion narrowing when it may lose data. A
  signed integer and a floating-point type of the same size pass the test, and values are lost
  (`Narrowing.FloatTestExactly`, `Narrowing.SafeValueLost`).
- `include/srf/memory/buffer.hpp:62-68` assigns over a buffer without releasing what it owns
  (`Buffers.LeaksExactly`, `Buffers.AssignmentLeaks`).
- `src/internal/control_plane/server_resources.cpp:301-312` ends the server when a stream closes that
  never registered, or that registered no worker or an address twice (`Registry.SurvivesExactly`,
  `Registry.RemovingUnregisteredFails`).
- `src/internal/control_plane/server_resources.cpp:122-128` looks up every machine marked to stop; one
  that has left meanwhile is not there (`Architect.AbortsExactly`, `Architect.MarkedMachineLeaves`).
- The bodies in `src/internal/control_plane/server_resources.cpp` are commented out at this revision.
  The class is declared (`src/internal/control_plane/server_resources.hpp:55-148`) and called
  (`src/internal/control_plane/server.cpp:66-130`), so Registry and Architect model what those bodies say.
- `enable_persistence` (`include/srf/node/sink_channel.hpp:192-204`) assigns a pointer to the base class
  to one to the derived class. The model does what its documentation at lines 47-55 and 110-111 says.

## Model

| member | source | states |
|---|---|---|
| `ThreadBarrier.Barrier.constructor` | include/srf/core/thread_barrier.hpp:56-59 | a new barrier for a positive number of threads awaits all of them |
| `ThreadBarrier.Barrier.EnterWait` | include/srf/core/thread_barrier.hpp:64-77 | the locked part of `wait`: what the caller remembers, the new fields, and that it was last exactly when the cycle bit now differs from what it saw |
| `ThreadBarrier.RunInv` | include/srf/core/thread_barrier.hpp:64-78 | every interleaving of arrivals, late notifications, spurious wake-ups and re-checks keeps each waiter in the open or the just completed generation |
| `ThreadBarrier.BarrierCorrect` | include/srf/core/thread_barrier.hpp:64-78 | in every run: no return from a generation before all have entered it; exactly one true per generation; no two threads two generations apart, and the remembered bit differs from the barrier's exactly when all have entered; no sleeper is stranded |
| `ThreadBarrier.RefinesRendezvous` | include/srf/core/thread_barrier.hpp:64-78 | every step of the one-bit barrier is a step of the rendezvous where a participant may leave a round exactly when all have entered it |
| `ThreadBarrier.RoundCompletes` | include/srf/core/thread_barrier.hpp:64-78 | once all have entered a round, as long as one is still inside, some thread can return without anybody arriving |
| `ThreadBarrier.SpuriousWakeups` | include/srf/core/thread_barrier.hpp:76-77 | a sleeping thread woken for no reason returns exactly when every thread has entered its round, and otherwise sleeps again with nothing changed |
| `DataflowBarriers.LeavesWithRendezvous` | include/srf/node/rx_runnable.hpp:62-89 | an instance waiting at any of its three barriers may go on exactly when the rendezvous lets it |
| `DataflowBarriers.StepsWithRendezvous` | include/srf/node/rx_runnable.hpp:62-89 | every step of a running node is a step of that rendezvous |
| `DataflowEdges.EdgesAreReal` | include/srf/node/sink_channel.hpp:143-164 | in every run and for every channel of the graph: it is closed exactly when the history of its sink channel and its feeders' source channels says so, and its reference count is that of the live edge's control block |
| `DataflowEdges.RunConnected` | include/srf/node/rx_node.hpp:136-141 | in that history the source channels connected are those of the nodes that still hold their ingress |
| `DataflowSafety.RunInv` | include/srf/node/rx_runnable.hpp:62-89 | every run keeps: no barrier jumped, reference counts equal to the edges held, open exactly while referenced, nothing lost or thrown, past reading only when closed and empty |
| `DataflowSafety.HolderFindsOpen` | include/srf/channel/channel.hpp:55-57 | whoever holds a downstream ingress finds that channel open |
| `DataflowSafety.WriteReaches` | include/srf/node/source_channel.hpp:46-54 | a write that is not blocked reaches the open, not full channel of the next node, and changes just these two nodes |
| `DataflowSafety.Effect` | include/srf/node/rx_runnable.hpp:62-89 | what a step can do to any node of the graph: its own node by its action; another only by one value more or one reference less |
| `DataflowOrder.ShutdownOrder` | include/srf/node/rx_runnable.hpp:76-89 | in every run and for every node: the critical section runs at most once, on rank 0, after every subscribe has returned, with no data after it and no return from `run` before it; and a finished node has run it |
| `DataflowOrder.DataCallbacks` | include/srf/node/rx_sink_base.hpp:84-88 | in every run every instance has had exactly one data callback per value it was given |
| `DataflowLiveness.Progress` | include/srf/node/rx_sink_base.hpp:79-92 | in every reachable state that is not finished some step is possible: no deadlock, whatever is full and whoever waits |
| `DataflowLiveness.StepWorks` | include/srf/node/rx_runnable.hpp:62-89 | every step leaves its node less to do, whatever its operator emits |
| `DataflowLiveness.GoesQuiet` | include/srf/node/rx_node.hpp:136-141 | in a run that never stops, once all that feed a node are quiet for good, so is the node from some point on |
| `DataflowLiveness.EveryRunEnds` | include/srf/node/rx_node.hpp:136-141 | a connected acyclic graph with finite sources has no infinite run |
| `DataflowLiveness.StuckMeansFinished` | include/srf/node/rx_source.hpp:76-81 | a run can go no further exactly when every instance of every node is back from `run` and every channel is closed and drained |
| `DataflowDelivery.ExactlyOnce` | include/srf/node/rx_sink_base.hpp:79-92 | in every run and for every node: the channel is first-in first-out and within capacity; as multisets, what it accepted is what the instances feeding it sent, each sender's values in order; what was taken went to exactly one instance, in order when there is one; past reading, all has been taken |
| `DataflowEmission.EmittedIsSent` | include/srf/node/rx_node.hpp:107-124 | in every run and for every instance, whatever its operator does: what it has sent and then what it still has to send is what it emitted by itself, on each read and on completion, in that order |
| `DataflowEmission.AcceptedIsEmitted` | include/srf/node/rx_sink_base.hpp:79-92 | once the feeders of a node have finished, its channel has accepted exactly what their operators emitted, value for value |
| `DataflowEndToEnd.EndToEnd` | include/srf/node/rx_node.hpp:86-92 | a finished graph of default nodes: the sinks consumed exactly what the sources emitted, value for value |
| `DataflowEndToEnd.RunContents` | include/srf/node/rx_node.hpp:86-92 | at every moment the values buffered, waiting to be written and consumed add up to those emitted |
| `DataflowPaths.PathOrder` | include/srf/node/rx_node.hpp:86-92 | along every path of single-instance default nodes, each fed by the one before alone: what the end has read is a prefix of what the source emitted, and all of it, in order, once the path has finished |
| `ProgressEngine.Await` | include/srf/channel/buffered_channel.hpp:42-45 | however the writers push and close meanwhile, within the capacity, the blocking read ends with something to read or with the channel closed and nothing to come |
| `ProgressEngine.Drive` | include/srf/node/rx_sink_base.hpp:79-92 | against writers that act at any time, the loop makes only reads the running graph allows, emits what the channel holds and is given in order, and ends when the graph allows its completion, or when the subscription ends |
| `SinkChannels.SinkChannel.ChannelIngress` | include/srf/node/sink_channel.hpp:131-164 | throws on a closed channel, shares the live edge, or makes a new one |
| `SinkChannels.SinkChannel.Drop` | include/srf/node/sink_channel.hpp:150-157 | the deleter of the last reference closes the channel the edge was made for |
| `SinkChannels.SinkChannel.Persist` | include/srf/node/sink_channel.hpp:192-204 | refines the persistence step: one ingress is acquired and kept, once |
| `SinkChannels.SinkChannel.Unpersist` | include/srf/node/sink_channel.hpp:185-190 | lets that ingress go |
| `SinkChannels.SinkChannel.UpdateChannel` | include/srf/node/sink_channel.hpp:166-176 | replaces the channel exactly when a channel is given and its use count shows that nobody shares the old one |
| `SinkChannels.SinkChannel.UseCount` | include/srf/node/sink_channel.hpp:150-157 | counted over the edges, the use count is one exactly when no edge of the channel is alive and no deleter of one is left |
| `SinkChannels.LiveIngressIsOpen` | include/srf/node/sink_channel.hpp:131-204 | over every interleaving of acquire, copy, drop, persist, unpersist and replace: every holder writes to the open channel being read; a channel is closed exactly when it had an ingress and the last reference is gone; counts are right |
| `SinkChannels.ReplacementIsSafe` | include/srf/node/sink_channel.hpp:70-78 | a replacement that passes its check found no live ingress and leaves an open channel; a channel that never had an ingress can always be replaced |
| `SinkChannels.AcquireFailsWhenUsedUp` | include/srf/node/sink_channel.hpp:137-141 | acquiring throws exactly when the current channel had an ingress and none is left |
| `ChannelLives.LifeTold` | include/srf/node/sink_channel.hpp:131-204 | in every run the sink channel is what a clerk's book says who only counts references: new, held with so many references outside and one kept inside or not, or used up; so many edges made and channels replaced; ended by a check or not |
| `ChannelLives.PersistenceKeepsOpen` | include/srf/node/sink_channel.hpp:47-55 | once an open sink channel is made persistent, nothing closes its channel until persistence is disabled |
| `ChannelLives.UnpersistClosesExactly` | include/srf/node/sink_channel.hpp:185-190 | disabling persistence closes the channel exactly when no reference is left outside |
| `SourceChannels.SourceChannel.CompleteEdge` | include/srf/node/source_channel.hpp:75-87 | takes an ingress exactly when it is not null, the source has none and the cast succeeds; which of the others throws and which is a failed check |
| `SourceChannels.SourceChannel.ReleaseChannel` | include/srf/node/source_channel.hpp:61-64 | drops the one reference the source holds, and no other |
| `SourceChannels.SourceChannel.AwaitWrite` | include/srf/node/source_channel.hpp:46-54 | a connected source reaches the channel its sink reads, never a closed one; without a channel it throws, or swallows the value in the writeable variant |
| `SourceChannels.MakeEdge` | include/srf/node/edge_builder.hpp:50-74 | what an attempted edge does to both ends, made or refused |
| `SourceChannels.OfferConnects` | include/srf/node/edge_builder.hpp:50-74 | in the history of one sink channel and its sources, an attempted edge does just that |
| `SourceChannels.SlotMoves` | include/srf/node/source_channel.hpp:61-87 | an offer connects a free source exactly when the sink's channel is open, letting go frees it, nothing else changes it |
| `SourceChannels.EdgesStayOpen` | include/srf/channel/channel.hpp:55-57 | in every history every connected source writes to the open channel being read, and a channel once connected is closed exactly when no source is connected and it is not kept open |
| `SourceChannels.RefusalClosesExactly` | include/srf/node/source_channel.hpp:78-84 | refusing an edge leaves the sink channel alone exactly when it was connected, kept open or closed already; otherwise it closes it for good |
| `SourceChannels.RefusalClosesNewSink` | include/srf/node/source_channel.hpp:78-84 | the smallest such history |
| `Services.ServiceObject.ForwardState` | src/internal/service.cpp:103-113 | the check fires exactly when the state would go back; it advances exactly when it would go forward |
| `Services.ServiceObject.ServiceStart` | src/internal/service.cpp:32-38 | refines the start step |
| `Services.ServiceObject.ServiceStop` | src/internal/service.cpp:45-60 | refines the stop step |
| `Services.ServiceObject.ServiceKill` | src/internal/service.cpp:62-77 | refines the kill step |
| `Services.ServiceObject.ServiceAwaitJoin` | src/internal/service.cpp:79-95 | an undisturbed join is its two steps, and never trips the check |
| `Services.ServiceObject.CallInDestructor` | src/internal/service.cpp:115-132 | ends in a state the destructor at line 29 accepts exactly when the service was never started, is completed, or its join does not throw; which hooks it runs |
| `Services.AbortsExactly` | src/internal/service.cpp:103-113 | over every sequence of calls the check fires exactly when a start follows a stop, a kill or a join |
| `Services.HooksAreSpaced` | src/internal/service.cpp:45-95 | between two stops, two kills, or a kill and a later stop, a join was entered; an unjoined stop or kill shows in the state |
| `Services.HookOrder` | src/internal/service.cpp:32-95 | over every sequence of calls: at most one start hook, before every other hook, and repeated stops and kills spaced by joins |
| `Services.CompletedIsFinal` | src/internal/service.cpp:45-95 | after Completed no call changes the state or runs a hook |
| `Services.GoesBackExactly` | src/internal/service.cpp:79-89 | one call sets the state back exactly when it joins a stopping or killed service, and then to Awaiting |
| `Services.PhaseTold` | src/internal/service.cpp:32-95 | the state of a service that met no check, and the number of joins inside it, told from the sequence of calls alone |
| `Services.HooksTold` | src/internal/service.cpp:32-95 | which hooks run and in which order, told from the calls alone: the first start in time, a stop with no stop or kill unjoined, a kill with no kill unjoined, every join, none of them after completion |
| `Services.AdvancesExactly` | src/internal/service.cpp:103-113 | over every sequence of calls the state never goes back exactly when no join is entered after a stop or kill that nobody has joined, before completion |
| `Services.StopThenJoinGoesBack` | src/internal/service.cpp:79-89 | stop, join, stop: the state goes back and the stop hook runs twice |
| `Pipelines.Instance.CreateSegment` | src/internal/pipeline/instance.cpp:100-145 | makes a new segment exactly when the partition exists, the address is free and its segment is defined |
| `Pipelines.Instance.StopSegment` | src/internal/pipeline/instance.cpp:83-98 | stops an owned, defined segment and keeps owning it |
| `Pipelines.Instance.StartAll` | src/internal/pipeline/instance.cpp:61-66 | starts every owned segment; a check fires exactly when one of them may not be started any more |
| `Pipelines.Instance.ServiceStop` | src/internal/pipeline/instance.cpp:181-189 | the first stop stops every segment; later ones do nothing |
| `Pipelines.Instance.ServiceKill` | src/internal/pipeline/instance.cpp:191-199 | the first kill stops and kills every segment |
| `Pipelines.Instance.JoinSegments` | src/internal/pipeline/instance.cpp:201-223 | every segment is joined whatever the others throw, and the hook throws exactly when one of them did |
| `Pipelines.Controller.constructor` | src/internal/pipeline/controller.cpp:46-50 | a new controller has started its pipeline and owns nothing |
| `Pipelines.Controller.CreateSegments` | src/internal/pipeline/controller.cpp:113-120 | the loop creates all requested segments, or meets a check exactly when one cannot be created, in any order |
| `Pipelines.Controller.StopSegments` | src/internal/pipeline/controller.cpp:122-127 | the loop stops all segments that are gone, or meets a check exactly when one is not owned or not defined |
| `Pipelines.Controller.UpdateTo` | src/internal/pipeline/controller.cpp:88-145 | the whole update refines the step on values, its failures included |
| `Pipelines.Controller.OnData` | src/internal/pipeline/controller.cpp:52-71 | one control message refines one step |
| `Pipelines.RestartExactly` | src/internal/pipeline/instance.cpp:61-65 | starting everything owned works exactly when no segment is stopped now, or was stopped, killed or joined earlier |
| `Pipelines.UpdateExactly` | src/internal/pipeline/controller.cpp:88-145 | an update survives exactly when it keeps all addresses, adds only defined ones on existing partitions, and the pipeline was not halted |
| `Pipelines.SurvivesExactly` | src/internal/pipeline/controller.cpp:52-145 | a run of updates, stops and kills, of joins from other threads and of failing segments reaches its end exactly when every update in it meets a condition on what came before; then the current addresses are the last request, the owned segments are those it names, the pipeline is the service its calls make it, and every segment was started exactly once |
| `Pipelines.SegmentTold` | src/internal/pipeline/instance.cpp:53-199 | in every run that survives every segment is the service that the starts, stops, kills and joins that reached it make it, told from the steps |
| `Pipelines.StopReachesSegments` | src/internal/pipeline/instance.cpp:181-189 | a stop that takes effect leaves every segment stopping or further |
| `Pipelines.KillReachesSegments` | src/internal/pipeline/instance.cpp:191-199 | a kill that takes effect stops and kills every segment |
| `Pipelines.JoinedExactly` | src/internal/service.cpp:79-95 | where an undisturbed join leaves a service, and the hook it runs |
| `Pipelines.JoinedBySteps` | src/internal/pipeline/instance.cpp:205-217 | joining a segment while the pipeline is joined is two steps of the run |
| `Pipelines.GrowingRequestsSurvive` | src/internal/pipeline/controller.cpp:88-145 | a run of updates alone survives exactly when each request contains the one before and adds only addresses that can be created |
| `Pipelines.DroppingFails` | src/internal/pipeline/controller.cpp:122-131 | an update to one address and then an update to none ends the process |
| `Pipelines.CreatedOnce` | src/internal/pipeline/instance.cpp:109-110 | in a run that survives no segment address is created twice |
| `Manifolds.RoundRobinEgress.Choose` | include/srf/manifold/egress.hpp:88-94 | picks the next output and moves on, or meets the check, leaving all else alone |
| `Manifolds.RoundRobinEgress.AwaitWrite` | include/srf/manifold/egress.hpp:86-96 | both checks pass exactly when there is a next output and the write to it succeeds; the position moves on either way |
| `Manifolds.RoundRobinEgress.AddOutput` | include/srf/manifold/egress.hpp:68-115 | attaches a new output whose sink takes an edge and starts over on a shuffled list of all of them; otherwise changes nothing |
| `Manifolds.RoundRobinEgress.ClearOutputs` | include/srf/manifold/egress.hpp:62-65 | drops the outputs and leaves the pick list pointing at them |
| `Manifolds.CompositeManifold.DoAddOutput` | include/srf/manifold/composite_manifold.hpp:78-86 | queues the output and attaches nothing |
| `Manifolds.CompositeManifold.UpdateOutputs` | include/srf/manifold/composite_manifold.hpp:88-122 | attaches all queued outputs and empties the queue exactly when none is there twice or attached already and every sink takes an edge; after a failure those before it are attached and the queue is as it was |
| `Manifolds.RoundRobinIsFair` | include/srf/manifold/egress.hpp:86-115 | in every interleaving the pick list is a permutation of the outputs, the position is in range, and k picks give each of n outputs k/n rounded down or up, up exactly for the first k mod n |
| `Manifolds.DataFailsExactly` | include/srf/manifold/egress.hpp:86-96 | a pick meets the check exactly when no output was ever added, and dangles exactly when one was, and they were cleared and none added since |
| `Manifolds.OutputsExactly` | include/srf/manifold/egress.hpp:62-75 | an output is attached exactly when it was added and nothing was cleared since |
| `Manifolds.FailsExactly` | include/srf/manifold/egress.hpp:62-96 | a run meets a failed check or picks an output that is gone exactly when it balances a value with no output attached or adds one that is attached, told from its events alone |
| `LoadBalancers.OrderedCallbacks` | include/srf/manifold/load_balancer.hpp:49-59 | callbacks in the shutdown order never balance a value after clearing |
| `LoadBalancers.LifeIsSound` | src/internal/pipeline/instance.cpp:100-145 | until the outputs are cleared, those attached are the requested segments that read from the manifold; none is attached twice and no value comes before the first |
| `LoadBalancers.BalancerNeverDangles` | src/internal/pipeline/instance.cpp:53-60 | in every run of the graph and every life of the manifold in a pipeline that survives, where updates create segments, attach them and then start the manifold: if the update that creates the manifold attaches an output, no check fires and no value goes to a cleared output |
| `RecentChannels.RecentChannel.AwaitWrite` | include/srf/channel/recent_channel.hpp:40-54 | refines the write step: closed, or appended after dropping the oldest of a full buffer |
| `RecentChannels.RecentChannel.AwaitRead` | include/srf/channel/recent_channel.hpp:56-70 | whatever other threads do while it waits, and however late it gets the lock, it reads at the first moment it holds the lock with something to read or the channel closed |
| `RecentChannels.RecentChannel.DoTryRead` | include/srf/channel/recent_channel.hpp:72-86 | refines the read step |
| `RecentChannels.RecentChannel.Close` | include/srf/channel/recent_channel.hpp:109-114 | closes and keeps what is buffered |
| `RecentChannels.EveryWriteAccounted` | include/srf/channel/recent_channel.hpp:40-86 | in every run the buffer is the tail of the accepted writes and within size; reads and drops each go in order; every accepted write is read, dropped or buffered, and just one of these; and every read gave the value of the write it took |
| `RecentChannels.AcceptedExactly` | include/srf/channel/recent_channel.hpp:40-54 | exactly the writes before closing are accepted |
| `RecentChannels.AnswersExactly` | include/srf/channel/recent_channel.hpp:40-86 | what the next write and the next read answer, told from the run: refused exactly when closed, empty exactly when no accepted write is waiting, otherwise the oldest one waiting |
| `RecentChannels.ChannelOf` | include/srf/channel/recent_channel.hpp:40-114 | the operations of the object, one after the other, are such a run |
| `RecentChannels.DroppedExactly` | include/srf/channel/recent_channel.hpp:47-51 | a write is dropped exactly when it is unread as the write `max` places later is accepted |
| `RecentChannels.CloseStrands` | include/srf/channel/recent_channel.hpp:109-114 | after closing nothing changes any more, and at most `max` accepted values stay undelivered |
| `EngineAllocation.NextCpuWalks` | include/srf/core/bitmap.hpp:78-83 | `next` walks the cpus in order, from -1 to the first and from the last to -1 |
| `EngineAllocation.ReusableFibers.Next` | src/internal/runnable/engine_factory.cpp:92-100 | hands out the queue that continues the cycle |
| `EngineAllocation.ReusableFibers.GetNextN` | src/internal/runnable/engine_factory.cpp:78-89 | any history of requests goes round the pool, shares differ by at most one, and a request gets different queues exactly when it asks for no more than there are |
| `EngineAllocation.ReusableThreads.Advance` | src/internal/runnable/engine_factory.cpp:191-196 | the cursor, wrapping at -1, hands out the cpu that continues the cycle |
| `EngineAllocation.ReusableThreads.GetNextN` | src/internal/runnable/engine_factory.cpp:186-199 | shares differ by at most one, and the granted set has as many cpus as asked for, or all of them |
| `EngineAllocation.WindowSize` | src/internal/runnable/engine_factory.cpp:186-199 | the size of the set granted by any stretch of the cycle |
| `EngineAllocation.SingleUseThreads.Advance` | src/internal/runnable/engine_factory.cpp:218-224 | one step of the cursor, back to -1 when the cpus are used up |
| `EngineAllocation.SingleUseThreads.GetNextN` | src/internal/runnable/engine_factory.cpp:213-227 | grants the next stretch of cpus, as many as asked for, or fails and starts over |
| `EngineAllocation.ThreadRunPredicted` | src/internal/runnable/engine_factory.cpp:213-227 | which requests are granted, fail, and are granted again, told from the numbers asked for alone |
| `EngineAllocation.ThreadsSingleUseExactly` | include/srf/options/engine_groups.hpp:45-47 | no cpu is granted twice exactly when no request that could be served follows the point where more was asked for than there is |
| `EngineAllocation.ThreadGrantedTwice` | src/internal/runnable/engine_factory.cpp:213-227 | of two cpus: one granted, two refused, and the first granted again |
| `EngineAllocation.SingleUseFibers.GetNextN` | src/internal/runnable/engine_factory.cpp:118-134 | grants the first queues of the pool every time |
| `EngineAllocation.FibersSingleUseExactly` | include/srf/options/engine_groups.hpp:45-47 | no queue is granted twice exactly when at most one request is non-empty and small enough |
| `EngineAllocation.FiberGrantedTwice` | src/internal/runnable/engine_factory.cpp:118-134 | of two queues: two requests for one both get the first |
| `EngineAllocation.InitializeLaunchers` | src/internal/runnable/thread_engines.cpp:32-46 | the checks pass exactly when the element count matches (and, for threads, there is an engine per element); then each element gets its engines |
| `EngineAllocation.ProductSize` | src/internal/runnable/fiber_engines.cpp:67-79 | the engines number elements times engines per element |
| `EngineAllocation.ProductShares` | src/internal/runnable/fiber_engines.cpp:72-78 | every element backs exactly its number of engines |
| `EngineAllocation.ProductAt` | src/internal/runnable/fiber_engines.cpp:72-78 | engine number i is backed by element number i divided by the engines per element |
| `EngineAllocation.Engine.LaunchTask` | src/internal/runnable/engine.cpp:30-39 | an engine runs at most one task; a second launch fails |
| `EngineAllocation.MakeContexts` | include/srf/runnable/launch_control.hpp:315-326 | ranks 0 to size-1 once each, all with one and the same new barrier, which awaits exactly that many |
| `Registry.ServerResources.RegisterWorkers` | src/internal/control_plane/server_resources.cpp:328-370 | refused exactly when an address is known; otherwise the next ids in order, and the new registry |
| `Registry.ServerResources.RemoveMachine` | src/internal/control_plane/server_resources.cpp:297-326 | the loop over the machine's ids refines removal as a whole, failing checks included |
| `Registry.RegisterMaps` | src/internal/control_plane/server_resources.cpp:348-367 | the new machine has exactly the next ids, each with the address at its place in the request |
| `Registry.FirstIds` | src/internal/control_plane/server_resources.hpp:103 | ids start at 42 |
| `Registry.RegisterAgrees` | src/internal/control_plane/server_resources.cpp:328-370 | registering without repeated addresses keeps all maps in agreement |
| `Registry.RemoveAgrees` | src/internal/control_plane/server_resources.cpp:297-326 | removing a registered machine trips no check, frees exactly its ids, and keeps the agreement |
| `Registry.RegistryAgrees` | src/internal/control_plane/server_resources.cpp:297-370 | every run of well-formed registrations and of removals that fires no check: the address set is the range of an injective id map, whose domain is the disjoint union of the machines' ids |
| `Registry.SurvivesExactly` | src/internal/control_plane/server_resources.cpp:297-370 | a run of any registrations and removals fires no check exactly when every removal names a machine given to an earlier registration that was accepted, not empty and without repetition, and not removed since; then the registry, its streams included, holds exactly what a ledger of those operations says |
| `Registry.RemovingUnregisteredFails` | src/internal/control_plane/server_resources.cpp:301-302 | removing a machine that never registered fires a check |
| `Registry.RemovableExactly` | src/internal/control_plane/server_resources.cpp:301-316 | a machine just registered can be removed exactly when it named a worker and no address twice |
| `Registry.IdsAreNew` | src/internal/control_plane/server_resources.cpp:353-365 | in every run that fires no check, no id is handed out twice |
| `Architect.UpdateServer.Answer` | src/internal/control_plane/server_resources.cpp:60-77 | answers every request in order exactly when each machine has a stream |
| `Architect.UpdateServer.OnClientUpdateStart` | src/internal/control_plane/server_resources.cpp:79-99 | refines the start step, its checks included |
| `Architect.UpdateServer.MoveMarked` | src/internal/control_plane/server_resources.cpp:121-129 | moves the marked machines, and only them, exactly when all are registered |
| `Architect.UpdateServer.OnClientUpdateComplete` | src/internal/control_plane/server_resources.cpp:101-137 | refines the complete step, its checks included |
| `Architect.UpdateIsTwoPhase` | src/internal/control_plane/server_resources.cpp:79-137 | in every run: no start is answered before all have started, no complete sent before all starts are answered, none answered before all are sent, no update issued before the one before is over; the stream maps stay disjoint |
| `Architect.AbortsExactly` | src/internal/control_plane/server_resources.cpp:101-137 | a run is ended by a check or a failed lookup exactly when a stop request comes from a machine that is not registered, or an update's last complete arrives while a machine marked to stop is not among those registered |
| `Architect.MarkedExactly` | src/internal/control_plane/server_resources.cpp:156-220 | the marked machines are exactly those whose stop request was processed in the window that is still open |
| `Architect.StreamsExactly` | src/internal/control_plane/server_resources.cpp:121-129 | the two stream maps together hold the machines that joined and have not left, and the second those that were marked when an update ended |
| `Architect.MarkedMachineLeaves` | src/internal/control_plane/server_resources.cpp:122-128 | a machine asks to stop and leaves; the update that follows ends the run |
| `Architect.UpdateProgresses` | src/internal/control_plane/server_resources.cpp:79-137 | an update issued to somebody never gets stuck |
| `Architect.MarkedMachinesMove` | src/internal/control_plane/server_resources.cpp:110-136 | the last complete, every marked machine being registered, ends the update and moves the marked machines; anything else moves nothing |
| `Buffers.Buffer.OfSize` | include/srf/memory/buffer.hpp:43-47 | allocates a block and remembers its resource and size |
| `Buffers.Buffer.MoveFrom` | include/srf/memory/buffer.hpp:56-60 | takes everything from the other buffer and leaves it empty |
| `Buffers.Buffer.MoveAssign` | include/srf/memory/buffer.hpp:62-68 | the same for assignment, also from itself, forgetting the target's own block |
| `Buffers.Buffer.Release` | include/srf/memory/buffer.hpp:70-78 | gives the block back to its resource, once |
| `Buffers.BlocksAreFreedOnce` | include/srf/memory/buffer.hpp:42-78 | over every run each deallocation matches a live allocation of the same resource and size, no block has two owners, and with no buffer left the live blocks are those forgotten by assignments |
| `Buffers.FatesTold` | include/srf/memory/buffer.hpp:42-78 | in every run, for every block ever allocated: its resource and size, and by whom it is held, or whether it was given back or abandoned, are what a ledger of the operations says |
| `Buffers.LeaksExactly` | include/srf/memory/buffer.hpp:62-68 | some allocated block has no owner exactly when a buffer that owned a block was assigned another; with no buffer left, memory is still allocated exactly then |
| `Buffers.AssignmentLeaks` | include/srf/memory/buffer.hpp:62-68 | two buffers, one assigned over the other, both destroyed: one block stays allocated |
| `Narrowing.IntegerTestIsExact` | include/srf/node/edge_builder.hpp:38-48 | for integers of every width and signedness the test is false exactly when the sink's range contains the source's |
| `Narrowing.FitsFloatExactly` | include/srf/node/edge_builder.hpp:38-48 | every value of an integer type is a floating-point value exactly when its magnitude fits the significand |
| `Narrowing.FloatTestExactly` | include/srf/node/edge_builder.hpp:38-48 | from integers of 1, 2, 4 and 8 bytes to float and double the test is right exactly when the integer is not signed and of the float's size |
| `Narrowing.TestExactly` | include/srf/node/edge_builder.hpp:38-48 | for every two of the integers of 1, 2, 4 and 8 bytes, float and double: the test is false exactly when every value of the source is one of the sink, except for a signed integer and a floating-point type of the same size |
| `Narrowing.SafeValueLost` | include/srf/node/edge_builder.hpp:38-48 | a 4-byte signed value that passes the test and has no float |

## Left out

- Kill and unsubscribe in the running graph, operators that unsubscribe early, and exceptions in
  operators: these abandon data on purpose, or strand a barrier.
- Persistent channels in the running graph: they never close, so such a graph does not end by itself.
- RxRunnable, RxNode and RxSource as objects: the running graph is a step system on values, so how
  `m_subscription`, `m_stream` and `m_observable` are updated in place is not captured.
- The buffered channel's inside: it is a bounded first-in first-out queue whose reader sees `closed` only
  when it is closed and empty. Fibers' barriers are taken to meet the rendezvous proved of the thread barrier.
- ProgressEngine.Drive: one instance of a sink, whose operator emits nothing; the other instances of its node
  are left to the running graph.
- Architect.UpdateIsTwoPhase: machines come and go between updates only and send one start and one
  complete per update, because the server counts messages and does not look at who sent them.
- Architect.UpdateProgresses: an update issued while no machine is registered has nobody to end it.
- Architect: the oracle's clock and queue, `register_pipeline` and the assignment manager; a batching window is a step.
- Registry.SurvivesExactly: counters do not wrap, and what the caller does with a refused registration is not part of it.
- Services.HookOrder: orders the decisions made under the lock; a hook runs after its lock is released and can be late.
- Pipelines.Instance.CreateSegment: the manifolds it makes and attaches are not fields of the model's object;
  what they are attached to is modelled in LoadBalancers.
- Pipelines.Instance.StartAll: the manifolds' updates before it are in LoadBalancers, and waiting until a segment is
  live is not modelled.
- Pipelines.SurvivesExactly: a segment is a service with unknown hooks.
- SinkChannels.SinkChannel.UpdateChannel: whether the deleter of a gone edge still shares the channel is an input.
- LoadBalancers.BalancerNeverDangles: that the write to a chosen output succeeds is left to
  SourceChannels.SourceChannel.AwaitWrite, and a sink is open when it is attached.
- RecentChannels: sizes are at least one, since with zero the first write pops an empty deque.
- `await_read_until` and other deadlines, and the null channel.
- EngineAllocation: cpu sets are lists in ascending order; the debug check that a request fits the pool is not needed and not assumed.
- Buffers: allocation always gives a new address, also for no bytes.
- Narrowing: bool and long double; exponents of floating-point types are not bounded, which the integers of 1 to 8 bytes do not reach.
- The data plane, memory pools, Python bindings, tracing, options and metrics.
