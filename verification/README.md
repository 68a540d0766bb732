# Verified model of the remote-persistence benchmarks

The `pmrdmabenchmark` programs measure three ways of making an RDMA write durable in a remote
machine's persistent memory. A client worker, a server worker and two network adapters take
turns on one reliable connection:

- **ws**: unsignaled RDMA WRITE, then a SEND that asks the server to flush; the server re-posts its
  receive, persists the slot and sends a notification back; only then does the client count an operation.
- **wi**: the same with WRITE_WITH_IMM instead of WRITE and SEND; the server persists first and re-posts then.
- **wr**: WRITE followed by a zero-length READ; there is no server worker.

The code nowhere states why queues of one or two entries suffice, why every message finds its
buffer, or why what was counted is durable. This project states it and proves it over every
interleaving, for every build (`NO_ACK`) and every option, and it says exactly where it is not so.
Around the protocols it covers the connection bookkeeping, the completion-event handling and
the write/read-back session of `rdma-example`, the slot layout, the statistics, the byte
pattern and the size text.

| file | content |
|---|---|
| `Machine.dfy` | integer widths, error numbers and NUL-terminated strings that the others share |
| `Protocol.dfy` | the three protocols as one transition system |
| `Invariant.dfy` | the global invariant and that every turn keeps it |
| `Progress.dfy` | deadlock freedom, ranking function, bounded response |
| `Safety.dfy` | queue safety, failing posts, durability, quiescence, each over all reachable states |
| `CrashImages.dfy` | the crash images that are possible, exactly |
| `DurableRegister.dfy`, `Refinement.dfy` | one abstract register and the forward simulation onto it |
| `Slots.dfy`, `Cluster.dfy` | 32-bit slot layout; many connections in one mapping, each writing where its metadata says |
| `Workers.dfy` | the worker loops in imperative form, run against the transition system |
| `Connections.dfy`, `Startup.dfy` | connection-manager events; when the workers may start |
| `CompletionEvents.dfy`, `Session.dfy` | get event / arm / poll / acknowledge; the example client and server |
| `Statistics.dfy`, `Pattern.dfy`, `SizeText.dfy` | 64-bit accumulation; `format_buf`/`verify_buf`; `size_str` |

## How the protocols are modelled

`Protocol.Apply` is one atomic turn of one party: one call of the client worker or the server, one
stage of one request in an adapter, the early placement of one byte of a write that is being
received, the write-back of one byte to the persistence domain, or raising `stop`. A run is any
sequence of enabled turns, so all statements about reachable states quantify over every schedule.

What is taken from the environment:

- Requests on a reliable connection are executed in order and exactly once (InfiniBand Architecture
  Specification Volume 1, section 9.5, transaction ordering); a SEND or WRITE_WITH_IMM consumes the
  oldest posted receive; every completion is successful.
- Requested queue sizes are exact, and a send slot is freed only by polling a completion of its own or a
  later request. `NO_ACK` selects `max_send_wr` 2 or 1 and `sq_sig_all` 0 or 1.
- A write that is being received may show in any subset of its bytes, and with persistent memory any
  byte may reach the persistence domain at any time. Only `pmem_persist` forces it; the model takes the
  moment that call returns.
- `readFlushes` is the platform hypothesis that a READ forces earlier writes into the persistence domain.
  Results about wr name it; placement (`Safety.CountedIsPlaced`) does without.
- Each write carries a version number, since the program never changes its source buffer. The
  version numbers and message counts are history; nothing branches on them.
- `stop` is raised per connection, which covers the one global flag; the clock does not go back and its
  readings fit in 63 bits.

## What the code does not do as its texts say

- **wi without persistence.** The wi option parser stores the path but never sets `use_pmem`
  (`pmrdmabenchmark/src/wibenchmark.c:1062-1064`; ws does at `wsbenchmark.c:1145-1148`). So a wi
  operation that was counted need not be durable; `Safety.DurableIff` gives the exact set of builds and options.
- **wi with `NO_ACK=1`.** No request is signaled and the send queue is never polled, so no slot is freed:
  two writes succeed, the third post fails (`Safety.NeverRetiresStopsAtTwo`, `Safety.NeverRetiresFails`).
- **Workers started without a connection.** `connect_events` takes an error event whose status is 0 for success
  and returns 0 with a node unconnected: a ws or wi worker then fails at its second receive, and a wr worker
  counts operations that never happened. And a DISCONNECTED taken while another connection is still awaited
  leaves the node's flag set (`wsbenchmark.c:653-656`), for example established 0, disconnected 0, established 1:
  its worker is started on a dead connection. `Startup.StartedWorkersAreSoundIff` shows that there is no third
  way, `Connections.DisconnectedWhileConnecting` and `Startup.WorkerStartsWithoutConnection` give the second input.
- **Layout check in 32 bits.** The test for "not enough persistent memory" wraps; it is sound exactly when
  the total size does not (`Slots.LayoutSoundIff`).
- **Averages.** The per-node and total averages divide by zero unless there were two operations
  (`Statistics.PrintedAverages`). Jitter uses 0 as "no value yet" and skips the difference after an
  operation of 0 ns (`Statistics.JitterIsTotalVariationIff`).
- **Example session.** Buffer lengths travel in 32 bits, so the data read back compares equal exactly for strings
  shorter than 2^32; and the server advertises its local key, so that the key is valid remotely is a
  hypothesis of the model (`Session.RunSession`). A failed completion leaves its event unacknowledged
  (`CompletionEvents.CompletionQueue.ProcessWorkCompletionEvents`).
- **Pattern check.** After a mismatch the verifier and the stream are in step again only if a multiple of 256
  bytes was left unread (`Pattern.ResyncIff`).

## Model

| member | source | states |
|---|---|---|
| `Invariant.InitInv` | pmrdmabenchmark/src/wsbenchmark.c:261-352 | Freshly created queue pairs, with the metadata and the first flush receive posted, satisfy the global invariant |
| `Invariant.StepKeeps` | pmrdmabenchmark/src/wsbenchmark.c:837-1009 | Every turn of every party keeps the global invariant: queue contents, message counts on both sides, which buffer awaits which message, and which versions memory may hold |
| `Invariant.RetireFrees` | pmrdmabenchmark/src/wsbenchmark.c:304-318 | Polling the completion of a signaled request frees its slot and those of the unsignaled ones before it, and none after it |
| `Invariant.WhenClientPostsFail` | pmrdmabenchmark/src/wsbenchmark.c:304-318 | On the client a send fails exactly when max_send_wr (2 with NO_ACK, else 1) slots are occupied, a receive exactly when one is posted |
| `Invariant.WhenServerPostsFail` | pmrdmabenchmark/src/wsbenchmark.c:304-318 | The same on the server |
| `Invariant.WhenAdaptersFail` | pmrdmabenchmark/src/wsbenchmark.c:280-286 | A message fails to arrive exactly when no receive of its kind is posted first or the CQ holds its one completion; a completion exactly when its CQ is full |
| `Invariant.PollsTakeUpTo` | pmrdmabenchmark/src/wibenchmark.c:712-728 | One poll takes the oldest completions, one in ws and up to eight in wi and wr |
| `Invariant.OtherCompletionIsDropped` | pmrdmabenchmark/src/wsbenchmark.c:842-847 | A completion with another opcode than the one tested for is taken and ignored |
| `Invariant.ClientTurn` | pmrdmabenchmark/src/wsbenchmark.c:947-1004 | No statement of a client worker breaks the invariant, in any of the three protocols and both builds |
| `Invariant.ServerTurn` | pmrdmabenchmark/src/wibenchmark.c:766-798 | No statement of the server breaks it either, whether it re-posts before it persists or after |
| `Invariant.ClientNicTurn` | pmrdmabenchmark/src/wsbenchmark.c:478-535 | Nor does any move of a write, flush, write-with-immediate or read through the client's adapter |
| `Invariant.ServerNicTurn` | pmrdmabenchmark/src/wsbenchmark.c:420-476 | Nor does the delivery of metadata or of a notification |
| `Invariant.TriggerFindsReceive` | pmrdmabenchmark/src/wsbenchmark.c:848-856 | A flush SEND or WRITE_WITH_IMM that reaches the server finds exactly its receive posted, of the kind its opcode needs, and the receive CQ empty |
| `Invariant.MessageFindsReceive` | pmrdmabenchmark/src/wsbenchmark.c:354-418 | Metadata lands in the metadata buffer and every later message in the notification buffer |
| `Invariant.Counts` | pmrdmabenchmark/src/wsbenchmark.c:837-869 | Who can be ahead of whom: counted operations never exceed persists, persists never exceed arrivals, arrivals never exceed posted triggers, and at most one operation is open |
| `Invariant.PersistCovers` | pmrdmabenchmark/src/wsbenchmark.c:853-855 | When the server persists, every byte of the write it was asked to flush is already in its memory |
| `Progress.NotStuck` | pmrdmabenchmark/src/wsbenchmark.c:783-799 | Deadlock freedom: until the client worker ends, a turn is enabled that is not an empty poll |
| `Progress.EffectiveTurn` | pmrdmabenchmark/src/wsbenchmark.c:837-1009 | Every such turn lowers one rank over both workers, queues and channels by exactly one (by more only when it ends the worker); counting an operation raises it by a fixed amount |
| `Progress.EffortIsConserved` | pmrdmabenchmark/src/wsbenchmark.c:947-1004 | Conservation over whole runs: turns spent plus rank left equals what the counted operations pay for |
| `Progress.EnoughTurnsCount` | pmrdmabenchmark/src/wsbenchmark.c:947-1004 | Bounded response: a run with more effective turns than n operations pay for has counted more than n |
| `Progress.Costs` | pmrdmabenchmark/src/wrbenchmark.c:755-792 | The exact number of turns an operation takes: 21, 16 and 11 for ws, wi and wr, one more when the write completion is awaited |
| `Progress.RunKeeps` | pmrdmabenchmark/src/wsbenchmark.c:871-1086 | The invariant holds after every run of every length |
| `Safety.QueuesNeverOverflow` | pmrdmabenchmark/src/wsbenchmark.c:280-318 | In every reachable state, connected or not: no message finds its receive missing or meant for another one, send queues hold at most max_send_wr, receive queues and CQs at most one entry, and the server never fails a post |
| `Safety.ReceivesAreOfTheRightKind` | pmrdmabenchmark/src/wsbenchmark.c:376-390 | In every reachable state the receive posted on the server has room for a flush request in ws and none in wi, and the one on the client is the metadata buffer until its message was polled and the notification buffer from then on |
| `Safety.PollTakesItsOwnCompletion` | pmrdmabenchmark/src/wibenchmark.c:712-728 | A poll of the client's send CQ for up to eight completions takes exactly one, that of the current operation's newest request, and empties the send queue |
| `Safety.PollTakesItsOwnMessage` | pmrdmabenchmark/src/wibenchmark.c:712-728 | A poll of the client's receive CQ, also for up to eight, takes exactly one completion and leaves no receive posted: first the metadata, then the notification that answers the current operation, which the server has persisted by then |
| `Safety.ServerPollTakesItsOwnCompletion` | pmrdmabenchmark/src/wsbenchmark.c:861-865 | The server's poll of its send CQ takes exactly the completion of the message it sent last, and empties its send queue |
| `Safety.ServerPollTakesTheRequest` | pmrdmabenchmark/src/wsbenchmark.c:840-847 | The server's poll of its receive CQ takes the one request of the open operation, whose opcode always passes the test |
| `Safety.NeverRetiresStopsAtTwo` | pmrdmabenchmark/src/wibenchmark.c:405-436 | In the NO_ACK build of wi at most two writes are ever posted, and every one occupies its slot for ever |
| `Safety.NeverRetiresFails` | pmrdmabenchmark/src/wibenchmark.c:876-903 | ... and a run exists, in every such configuration, that counts two operations and fails the third post |
| `Safety.UnconnectedRun` | pmrdmabenchmark/src/wsbenchmark.c:398-418 | Over every run on an unconnected node nothing is posted, sent or placed, and a ws or wi worker counts nothing |
| `Safety.UnconnectedReceiveFails` | pmrdmabenchmark/src/wsbenchmark.c:965-971 | A ws or wi worker on an unconnected node fails at post_recv_notification, because the metadata receive is still posted |
| `Safety.UnconnectedCounts` | pmrdmabenchmark/src/wrbenchmark.c:328-391 | A wr worker on an unconnected node counts an operation although nothing was posted |
| `Safety.WorkerFailsIff` | pmrdmabenchmark/src/wsbenchmark.c:938-1009 | A client worker can run into a failing post if and only if the node is unconnected (ws, wi) or the build is wi with NO_ACK |
| `Safety.CrashImage` | pmrdmabenchmark/src/wsbenchmark.c:837-869 | A crash in any reachable state leaves in each byte of the slot the last counted write or the single one in flight; with none in flight, exactly the last counted one |
| `CrashImages.CrashImageIff` | pmrdmabenchmark/src/wsbenchmark.c:837-869 | The bound is exact: after n counted operations a crash can leave precisely the images whose bytes are each from write n or write n + 1, in any mixture |
| `Safety.NothingPersistsWithoutPmem` | pmrdmabenchmark/src/wibenchmark.c:1062-1064 | Without persistent memory in use, no run makes any byte durable |
| `Safety.CountedIsPlaced` | pmrdmabenchmark/src/wrbenchmark.c:755-792 | Without any persistence hypothesis: every counted write has reached the server's memory |
| `Safety.DurableIff` | pmrdmabenchmark/src/wibenchmark.c:1062-1064 | Counting means durable in every reachable state if and only if the options say so: persistent memory in use, and for wr a connection and the read-flush hypothesis |
| `Safety.LosesCountedWrite` | pmrdmabenchmark/src/wibenchmark.c:766-798 | In every other configuration a run exists that loses a counted write |
| `Safety.Drive` | pmrdmabenchmark/src/wsbenchmark.c:947-1004 | From any reachable state that was not told to stop, a run leads to the next counted operation or to the failing post |
| `Safety.QuiescentAtStop` | pmrdmabenchmark/src/wsbenchmark.c:1052-1059 | A worker that leaves through stop has no posted receive, no unpolled completion and (except wi with NO_ACK) no occupied send slot; operations counted, triggers sent, triggers arrived, persists and notifications all agree; memory holds exactly the last counted write |
| `Safety.StopTurn` | pmrdmabenchmark/src/wsbenchmark.c:947-1004 | Once stop is raised, every effective turn, the counting ones too, brings the end of the worker nearer by one |
| `Safety.StopBudget` | pmrdmabenchmark/src/wsbenchmark.c:1052-1059 | Over whole runs from the moment stop is raised: effort is taken from a budget that is at most the rank plus one and is not renewed |
| `Safety.StoppedWorkerEnds` | pmrdmabenchmark/src/wsbenchmark.c:1056-1059 | So joining the workers takes bounded time: a run that spends that budget has seen the worker leave its loop (or fail, in wi with NO_ACK) |
| `Safety.StoppedWorkerCanEnd` | pmrdmabenchmark/src/wsbenchmark.c:1056-1059 | And from every reachable state with stop raised, a run leads out of the loop |
| `Safety.StopEndsTheWorker` | pmrdmabenchmark/src/wsbenchmark.c:1055-1059 | Raising stop stops: every run goes on to one in which stop was raised and the worker has left its loop, drained and with its last counted write in place |
| `Safety.OnlyTheOperatorStops` | pmrdmabenchmark/src/wsbenchmark.c:1055 | Nothing but raising it changes stop, and raising it sets it |
| `Safety.StoppedWorkerCountsAtMostOne` | pmrdmabenchmark/src/wsbenchmark.c:947-1004 | After stop at most the operation that is open is still counted |
| `DurableRegister.AcknowledgedIsNeverLost` | pmrdmabenchmark/src/wsbenchmark.c:837-1009 | What the three protocols are for: in every behaviour of the durable register, a version acknowledged at any time survives a crash at any later time |
| `DurableRegister.BehaviourIsWellFormed` | pmrdmabenchmark/src/wsbenchmark.c:837-1009 | In every behaviour the durable count is the acknowledged one or, while a write is open, one more |
| `Refinement.StepSimulates` | pmrdmabenchmark/src/wibenchmark.c:766-926 | Every turn of every durable build is a step of the register (begin, become durable, acknowledge) or none |
| `Refinement.RunRefinesRegister` | pmrdmabenchmark/src/wsbenchmark.c:947-1004 | Forward simulation over whole runs: every run of ws, wi and wr, waiting for the write completion or not, is a behaviour of the one register, and every crash image on the way is one it allows |
| `Refinement.EveryCountReachable` | pmrdmabenchmark/src/wrbenchmark.c:755-792 | The simulation is not vacuous: every operation count is reached (two at most in wi with NO_ACK) |
| `Slots.MulUint32` | pmrdmabenchmark/src/wsbenchmark.c:154 | The offset product fits 32 bits, and is the true product whenever that one does |
| `Slots.OffsetWraps` | pmrdmabenchmark/src/wsbenchmark.c:154 | The offset of a slot is the product's remainder modulo 2^32, whatever its size |
| `Slots.AcceptsIff` | pmrdmabenchmark/src/wsbenchmark.c:738 | Without wrap-around a mapping is accepted exactly when it has message_size times connections bytes |
| `Slots.NoWrapIsSound` | pmrdmabenchmark/src/wsbenchmark.c:738-741 | Without wrap-around, a mapping that passes the size test contains all slots and no two overlap |
| `Slots.LayoutSoundIff` | pmrdmabenchmark/src/wsbenchmark.c:730-743 | The size test is sufficient for every mapping if and only if message_size times connections does not wrap |
| `Cluster.PostedAfterArrival` | pmrdmabenchmark/src/wsbenchmark.c:1039-1051 | A write is posted only after the metadata has arrived in the client's buffer |
| `Cluster.MetadataArrivesFirst` | pmrdmabenchmark/src/wsbenchmark.c:905-913 | The first message to arrive, and no other, is the metadata, and the server's buffer had been filled by then |
| `Cluster.AddressedKeeps` | pmrdmabenchmark/src/wsbenchmark.c:524-529 | Every turn keeps: the address in the metadata, in the client's buffer and in each posted write is that of the slot of the node the server gave the connection |
| `Cluster.TurnStays` | pmrdmabenchmark/src/wsbenchmark.c:524-529 | The bytes that land at the address in a request, and those that are flushed, are bytes of the connection's own slot |
| `Cluster.TurnIsLocal` | pmrdmabenchmark/src/wsbenchmark.c:524-529 | A turn of one connection in the shared mapping is its own protocol step, and no other connection sees any of it |
| `Cluster.ClusterProjects` | pmrdmabenchmark/src/wsbenchmark.c:905-919 | However N connections interleave, each one's part of the run is a run of the protocol on its own, and all its addresses are those of its node |
| `Cluster.HandedOutNodesAreSound` | pmrdmabenchmark/src/wsbenchmark.c:591-596 | Whatever the order in which connection requests arrive, the nodes handed out to distinct ids have slots inside an accepted mapping and apart from each other, unless the size wraps |
| `Cluster.EveryConnectionIsDurable` | pmrdmabenchmark/src/wsbenchmark.c:705-743 | So with an accepted mapping and no wrap-around, in any order of requests and any interleaving, every connection finds in the slot of its node after a crash what it counted, and no write was ever posted with any other address |
| `Workers.Testbed.Interfere` | pmrdmabenchmark/src/wsbenchmark.c:1049-1055 | Threads run side by side: the turns the other parties want come up in their order, none is skipped or repeated, and the worker stays where it is and keeps its counts |
| `Workers.Testbed.PostSend` | pmrdmabenchmark/src/wsbenchmark.c:478-535 | A post fails exactly when the node is connected and the send queue is full; otherwise exactly its request joins the queue, except on an unconnected node, where it reports success and posts nothing |
| `Workers.Testbed.PostRecvNotification` | pmrdmabenchmark/src/wsbenchmark.c:398-418 | The post fails exactly when a receive is posted already; otherwise the notification buffer joins the receive queue |
| `Workers.Testbed.PollClientCq` | pmrdmabenchmark/src/wsbenchmark.c:791-797 | One poll: it takes the completion if there is one and changes nothing if there is none |
| `Workers.Testbed.NodePollNCq` | pmrdmabenchmark/src/wsbenchmark.c:783-799 | The polling loop ends with its completion taken and its queues empty (for the notification: with the operation persisted by the server), or every other party has had every turn it wanted and the completion is still missing; on an unconnected node it ends at once |
| `Workers.Testbed.WritePhase` | pmrdmabenchmark/src/wsbenchmark.c:947-963 | Under any interference: the write is posted and, unless built with NO_ACK, its completion was taken; or the worker left through stop or failed; or it waits although all others had their turns |
| `Workers.Testbed.ReceivePhase` | pmrdmabenchmark/src/wsbenchmark.c:965-971 | The same for posting the receive of the notification |
| `Workers.Testbed.TriggerPhase` | pmrdmabenchmark/src/wibenchmark.c:884-897 | The same for the request that ends an operation and the wait for its completion |
| `Workers.Testbed.NotificationPhase` | pmrdmabenchmark/src/wsbenchmark.c:982-992 | The same for the notification; then the operation is counted, and the slot holds exactly what was counted, durably where the options flush |
| `Workers.Testbed.WsOperation` | pmrdmabenchmark/src/wsbenchmark.c:947-1004 | The ws loop body under any interference: it counts exactly one operation and leaves the slot holding exactly what was counted (durably where the options flush); or it returns through stop or a failed post counting none; or it waits at a poll although every other party has had every turn it wanted |
| `Workers.Testbed.WiOperation` | pmrdmabenchmark/src/wibenchmark.c:876-921 | The same for wi |
| `Workers.Testbed.WrOperation` | pmrdmabenchmark/src/wrbenchmark.c:755-792 | The same for wr |
| `Workers.Testbed.Worker` | pmrdmabenchmark/src/wsbenchmark.c:938-1009 | For any number of rounds and any interference: the worker counted that many operations and the slot holds the last of them; or it returned through stop, drained (and durable where the options flush), or failed in one of the configurations that can; or it waits at a poll although every other party has had every turn it wanted |
| `Workers.Testbed.OutcomeHolds` | pmrdmabenchmark/src/wsbenchmark.c:1052-1059 | What may be said of a worker after it has returned, from reachability alone |
| `Workers.Testbed.PostRecvTrigger` | pmrdmabenchmark/src/wibenchmark.c:337-352 | The server's re-post puts a receive with room for a flush request (ws) or without any (wi) into the queue and never fails |
| `Workers.Testbed.PersistSlot` | pmrdmabenchmark/src/wsbenchmark.c:853-855 | With persistent memory the slot's durable contents become what is in memory, else they stay |
| `Workers.Testbed.PostSendNotification` | pmrdmabenchmark/src/wsbenchmark.c:449-476 | The notification joins the server's send queue and the post never fails |
| `Workers.Testbed.PollRequest` | pmrdmabenchmark/src/wsbenchmark.c:840-847 | One poll for a request: it takes one exactly if one is there, and changes nothing otherwise |
| `Workers.Testbed.Serve` | pmrdmabenchmark/src/wibenchmark.c:777-789 | From a request to its notification under any interference, in the order of ws or of wi: persisted exactly once, in three calls none of which fails |
| `Workers.Testbed.ServerPollN` | pmrdmabenchmark/src/wibenchmark.c:790-794 | The wait for the notification's completion ends with it taken, or every other party has had every turn it wanted |
| `Workers.Testbed.ServerPass` | pmrdmabenchmark/src/wsbenchmark.c:840-867 | One pass of the server loop under any interference: a request is served exactly if one was there when the pass polled; requests received and persists rise together, by one |
| `Workers.Testbed.ServerWorker` | pmrdmabenchmark/src/wibenchmark.c:766-798 | The server worker makes all its passes, or waits for a notification's completion although every other party has had every turn it wanted; every request it received was persisted once, is durable with persistent memory, and was answered |
| `Connections.Benchmark.constructor` | pmrdmabenchmark/src/wsbenchmark.c:705-728 | After allocation no node is connected, all connects are outstanding, and a client has one id for each node |
| `Connections.Benchmark.AddrHandler` | pmrdmabenchmark/src/wsbenchmark.c:539-554 | A failed route resolution is returned and counted once |
| `Connections.Benchmark.RouteHandler` | pmrdmabenchmark/src/wsbenchmark.c:557-584 | The first failing of creating the queue pair, posting the metadata receive and connecting is returned and counted once |
| `Connections.Benchmark.ConnectHandler` | pmrdmabenchmark/src/wsbenchmark.c:587-623 | A request takes the next node, none when all are taken (and that is not counted), and a failure is counted once |
| `Connections.Benchmark.CmaHandler` | pmrdmabenchmark/src/wsbenchmark.c:625-664 | The effect of every kind of event on the five counters and flags, and the value returned |
| `Connections.Benchmark.ConnectEvents` | pmrdmabenchmark/src/wsbenchmark.c:801-817 | The loop consumes events until nothing is left to connect or one fails, as the event-loop function says |
| `Connections.Benchmark.DisconnectEvents` | pmrdmabenchmark/src/wsbenchmark.c:819-835 | The same until nothing is left to disconnect |
| `Connections.EventAgrees` | pmrdmabenchmark/src/wsbenchmark.c:537-664 | One event keeps the books: outstanding + established + failed connects is the number of connections, where the event itself says whether it is a failure (so connect_error ran exactly for those), outstanding disconnects is established minus disconnected, distinct ids have distinct nodes within range, and the flags are exactly the established ids |
| `Connections.UnreportedFailure` | pmrdmabenchmark/src/wsbenchmark.c:644-653 | A failure for which the handler returns 0 is exactly an error event with status 0 |
| `Connections.ReportedError` | pmrdmabenchmark/src/wsbenchmark.c:591-622 | Every error a handler returns is a failure that was counted, except a request that finds all nodes taken and a failing rdma_get_cm_event |
| `Connections.HandlerReturns` | pmrdmabenchmark/src/wsbenchmark.c:539-664 | The value a handler returns: the first of its calls that fails, the status of an error event, -ENOMEM for a request too many, errno when there was no event, else 0 |
| `Connections.AfterIs` | pmrdmabenchmark/src/wsbenchmark.c:801-835 | The history of a sequence of events knows exactly the ids it reports established and those it reports disconnected |
| `Connections.LoopAgrees` | pmrdmabenchmark/src/wsbenchmark.c:801-835 | For both loops and any event sequence, after exactly the events taken and whatever the loop returned: outstanding + established + failed connects is the number of connections, outstanding disconnects is established minus disconnected, and the failures are the errors with status 0 plus, when an error is returned, that one (unless it was a request too many or a failing rdma_get_cm_event) |
| `Connections.LoopGoesOnIff` | pmrdmabenchmark/src/wsbenchmark.c:801-835 | Both loops stop at once exactly when their counter is 0, and wait for an event exactly when it is not |
| `Connections.LoopReturnsLast` | pmrdmabenchmark/src/wsbenchmark.c:801-835 | Over any event sequence, an error returned is the value that belongs to the last event taken |
| `Connections.RejectionIsReturned` | pmrdmabenchmark/src/wsbenchmark.c:644-653 | A rejection with a nonzero status is returned with that status |
| `Connections.ConnectErrorIsCounted` | pmrdmabenchmark/src/wsbenchmark.c:801-817 | When connect_events returns an error: what is outstanding is the number of connections less the established ids, the errors with status 0 and the one failure reported, with the two exceptions named |
| `Connections.ConnectEventsIff` | pmrdmabenchmark/src/wsbenchmark.c:1033-1051 | When connect_events returned 0: every node's connected flag is set if and only if no error with status 0 was reported; every node has a live connection if and only if, besides, no DISCONNECTED was taken; and the books are those of the ids the events named |
| `Connections.EveryNodeIsUp` | pmrdmabenchmark/src/wsbenchmark.c:1033-1051 | When as many ids are up as there are nodes, every node belongs to one of them |
| `Connections.SilentRejectionIsTakenForSuccess` | pmrdmabenchmark/src/wsbenchmark.c:644-653 | One rejection with status 0: connect_events returns 0 and the node is not connected |
| `Connections.DisconnectedWhileConnecting` | pmrdmabenchmark/src/wsbenchmark.c:653-656 | Established 0, disconnected 0, established 1: connect_events returns 0 with both flags set and node 0 without a connection |
| `Connections.DisconnectEventsWaitsForAll` | pmrdmabenchmark/src/wsbenchmark.c:921-927 | When disconnect_events returned 0, the ids up before or established meanwhile are exactly the ids down before or reported disconnected meanwhile |
| `Connections.SessionEndsDisconnected` | pmrdmabenchmark/src/wsbenchmark.c:1033-1084 | Over both loops, whether connect_events returned 0 or an error: when disconnect_events then returned 0, the ids ever established are exactly the ids ever disconnected |
| `Startup.StartedWorkersAreSoundIff` | pmrdmabenchmark/src/wsbenchmark.c:1033-1051 | With durable options, every worker the client starts has a live connection, keeps what it counts and never fails, if and only if connect_events took neither an error with status 0 nor a DISCONNECTED; and a worker started without its flag set is not sound |
| `Startup.WorkerStartsWithoutConnection` | pmrdmabenchmark/src/wsbenchmark.c:1048-1051 | A worker is started on the flag of a connection that has gone down |
| `CompletionEvents.CompletionQueue.Arrive` | rdma-example/src/common.cpp:142-146 | A completion raises an event exactly when the queue is armed, and disarms it; into a full queue it is lost |
| `CompletionEvents.CompletionQueue.Interlude` | rdma-example/src/common.cpp:152-158 | Completions that arrive between two statements keep their order and keep (armed) + (pending events) |
| `CompletionEvents.CompletionQueue.GetCqEvent` | rdma-example/src/common.cpp:142-151 | It returns if and only if there is an event or an armed queue with a completion to come |
| `CompletionEvents.CompletionQueue.Poll` | rdma-example/src/common.cpp:164-176 | The polling loop ends if and only if enough completions come, and takes the next ones in order |
| `CompletionEvents.CompletionQueue.ProcessWorkCompletionEvents` | rdma-example/src/common.cpp:135-191 | No lost wakeup: between calls (armed) + (pending events) is exactly 1; the call blocks exactly when no event is pending and nothing will arrive, spins exactly when fewer completions come than asked for, and otherwise takes exactly the next ones and returns their number or the first bad status |
| `CompletionEvents.FirstBad` | rdma-example/src/common.cpp:178-186 | The index of the first completion that is not a success |
| `CompletionEvents.VerdictReports` | rdma-example/src/common.cpp:177-190 | The value returned: all completions when all are good, else minus the status of the first that is not, whatever comes after it |
| `CompletionEvents.CheckStatus` | rdma-example/src/common.cpp:178-186 | It reports success exactly when all completions are good, else minus the status of the first bad one |
| `CompletionEvents.CompletionQueue.AskOnce` | rdma-example/src/client.cpp:342-346 | A caller that posts requests on an empty queue, no more than the queue has room for, and asks for exactly that many completions gets them, whenever they arrive and whatever event was left behind |
| `CompletionEvents.CompletionQueue.AskForWhatIsOutstanding` | rdma-example/src/client.cpp:263-399 | Over any sequence of such calls: none blocks or spins, none loses a completion, each takes just its own, and between them the queue is empty and balanced |
| `CompletionEvents.CompletionQueue.Flood` | rdma-example/src/client.cpp:172-176 | The bound is exact: when all arrive before anything is polled, a completion is lost if and only if more were posted than the capacity |
| `CompletionEvents.TakingTooFewBlocks` | rdma-example/src/common.cpp:135-191 | A caller that takes fewer completions than have arrived blocks at its next call with a completion waiting |
| `Session.Len32` | rdma-example/src/client.cpp:275-278 | The length field holds the length modulo 2^32, so it keeps a length exactly when it is below |
| `Session.StrCmpZero` | rdma-example/src/client.cpp:44-46 | strcmp is 0 exactly when the two buffers hold the same C string |
| `Session.StrCmpFirst` | rdma-example/src/client.cpp:44-46 | Otherwise its value comes from the first byte in which the strings differ |
| `Session.Client.SetSrc` | rdma-example/src/client.cpp:48-56 | src holds the string up to its first NUL, then NULs to the end |
| `Session.Client.AllocDst` | rdma-example/src/client.cpp:58-65 | dst is all zero and one byte longer than the string |
| `Session.Server.ExchangeMetadataWithClient` | rdma-example/src/server.cpp:269-344 | The server waits for one receive and one send and leaves a zeroed buffer of the requested length, its CQ empty and balanced |
| `Session.Client.ExchangeMetadataWithServer` | rdma-example/src/client.cpp:263-318 | The client waits for its two completions, gets a buffer of the length it advertised, and its CQ is empty and balanced, so the stale event does no harm |
| `Session.Client.SendWrite` | rdma-example/src/client.cpp:320-354 | The remote buffer becomes the first bytes of src, or the call returns the access error and the buffer is unchanged |
| `Session.Client.SendRead` | rdma-example/src/client.cpp:356-399 | The remote buffer comes back into the front of dst and the rest of dst stays |
| `Session.Client.CmpData` | rdma-example/src/client.cpp:44-46 | It returns 0 exactly when the two buffers hold the same string |
| `Session.ReadBackEquals` | rdma-example/src/client.cpp:58-65 | A dst with the first n bytes of the string and zeros after them equals src exactly when n is its whole length |
| `Session.WriteThenRead` | rdma-example/src/client.cpp:466-535 | Writing and then reading brings back exactly the bytes that fit the length field |
| `Session.Transfer` | rdma-example/src/client.cpp:466-535 | From a negotiated buffer: the comparison is 0 exactly when the length fits, or the access error is returned |
| `Session.RunSession` | rdma-example/src/client.cpp:466-535 | For every string and key: the write is refused if and only if the key is not valid and the 32-bit length field is not 0; otherwise the data read back compares equal if and only if the length is below 2^32; and no step waits for ever |
| `Statistics.JitterBound` | pmrdmabenchmark/src/wsbenchmark.c:995-1002 | Jitter is at most twice the total latency, less the first and the last one |
| `Statistics.JitterIsTotalVariationIff` | pmrdmabenchmark/src/wsbenchmark.c:995-1002 | Jitter is the sum of all differences of neighbours if and only if no zero latency is followed by another value |
| `Statistics.LatenciesFit` | pmrdmabenchmark/src/wsbenchmark.c:945-1006 | For a clock that never goes back: send latencies add up to at most the latencies, and these to at most the elapsed time |
| `Statistics.LatenciesAre` | pmrdmabenchmark/src/wsbenchmark.c:990-994 | The latency runs from the start of the operation to its end, the send latency from after the write |
| `Statistics.NoWrap` | pmrdmabenchmark/src/wsbenchmark.c:991-1003 | Accumulating one more value in 64 bits gives what unbounded numbers give |
| `Statistics.Statistics.RecordNext` | pmrdmabenchmark/src/wsbenchmark.c:990-1003 | After one more operation the fields are the sums, jitters and last values of all latencies so far, as unbounded numbers |
| `Statistics.Statistics.Worker` | pmrdmabenchmark/src/wsbenchmark.c:938-1009 | After any number of operations the fields are the sums and jitters of the true latencies, nothing wrapped, and send latency <= latency <= elapsed time |
| `Statistics.TotalIsPlausible` | pmrdmabenchmark/src/wsbenchmark.c:1060-1069 | The bounds that hold of every node hold of the totals |
| `Statistics.TotalIsSum` | pmrdmabenchmark/src/wsbenchmark.c:1060-1069 | Each of the six totals is the sum of that field over the nodes |
| `Statistics.TruncationLosesLessThanOne` | pmrdmabenchmark/src/wsbenchmark.c:1070-1072 | Total latency is below connections times (average time + 1) in spite of the truncating division |
| `Statistics.AverageIs` | pmrdmabenchmark/src/wsbenchmark.c:1070-1072 | The averaged time is the quotient of the total by the number of connections, and no other field changes |
| `Statistics.TotalStatistics.AddAll` | pmrdmabenchmark/src/wsbenchmark.c:1060-1069 | The 64-bit totals are the true sums over the nodes |
| `Statistics.TotalStatistics.Aggregate` | pmrdmabenchmark/src/wsbenchmark.c:1060-1073 | The elapsed time becomes the quotient of its sum by the number of nodes, the other totals stay, and the bounds hold |
| `Statistics.PrintedAre` | pmrdmabenchmark/src/wsbenchmark.c:116-131 | With two operations or more, what is printed are the quotients of the latencies by the operations and of the jitters by one fewer |
| `Statistics.PrintedAverages` | pmrdmabenchmark/src/wsbenchmark.c:116-131 | Printing divides by zero if and only if fewer than two operations were counted; otherwise the printed jitter is at most the total divided by operations less connections, and over ops - 1 differences it adds up to at most twice the latency |
| `Statistics.FormedOnAllFewer` | pmrdmabenchmark/src/wsbenchmark.c:995-1002 | The differences that were really added up on all nodes are fewer than the operations, by one for each node when every node did one, and jitter is 0 if there was none |
| `Statistics.PrintedJitterIsBelowMean` | pmrdmabenchmark/src/wsbenchmark.c:1060-1073 | The printed jitter never exceeds the mean over the differences that were really added up, whatever each node did |
| `Pattern.Statics.FormatBuf` | pmrdmabenchmark/src/common.c:94-102 | It continues the pattern where the last call stopped and touches nothing beyond size |
| `Pattern.Statics.VerifyBuf` | pmrdmabenchmark/src/common.c:104-118 | It returns 0 exactly when all bytes continue the pattern, else -1 at the first that does not; the byte count then names that byte, the expected value is one past it |
| `Pattern.VerifyReturns` | pmrdmabenchmark/src/common.c:110-117 | The value is 0 when all bytes continue the pattern and -1 otherwise |
| `Pattern.OffsetIsModulo` | pmrdmabenchmark/src/common.c:101 | The wrapping counter is addition modulo 256 |
| `Pattern.FirstMismatchIff` | pmrdmabenchmark/src/common.c:110-116 | The first mismatch is the one position up to which the bytes are the pattern and at which they depart from it |
| `Pattern.FormattedIsPattern` | pmrdmabenchmark/src/common.c:94-102 | Calls of any sizes write one continuous pattern |
| `Pattern.VerifyAllSeesStream` | pmrdmabenchmark/src/common.c:104-118 | However a stream is cut into calls: all return 0 if and only if it is the pattern, else exactly the call that contains the first altered byte returns -1, with its stream position in total_bytes |
| `Pattern.FormattedIsAccepted` | pmrdmabenchmark/src/common.c:94-118 | What was formatted in pieces of any sizes is accepted in pieces of any other sizes |
| `Pattern.ResyncIff` | pmrdmabenchmark/src/common.c:111-116 | After a failed call the rest of the stream is accepted if and only if the number of unread bytes is a multiple of 256 |
| `SizeText.NumberOfDigits` | pmrdmabenchmark/src/common.c:62-67 | Decimal digits read back as the number and have no leading zero |
| `SizeText.UnitIs` | pmrdmabenchmark/src/common.c:47-56 | The unit is the largest of 1, 1024, 1024^2 and 1024^3 that the size reaches |
| `SizeText.TextShape` | pmrdmabenchmark/src/common.c:58-67 | k, m and g stand for these units, and a decimal is printed only below ten units and only if it is not 0 |
| `SizeText.DecodeIsLeast` | pmrdmabenchmark/src/common.c:42-68 | The text of a size reads back as the least size with that text, which prints as the same text and lies less than a tenth of the unit below (one decimal) or less than a unit |
| `SizeText.SizeStr` | pmrdmabenchmark/src/common.c:42-68 | For every size and buffer length the buffer reads as that text, cut to fit; the NUL that stands for no suffix is invisible and nothing beyond ssize is touched |

## Left out

- Error-path cleanup (`destroy_node`, the `err:` labels, the failure return of `alloc_nodes`): resource plumbing with unset return values.
- Separate allocations: without persistent memory every node has a block of its own from malloc; `Cluster` is about the shared mapping.
- Remote access rights: a write to a place outside the mapping is refused and changes nothing in `Cluster`; keys and lengths of the memory regions are not modelled.
- Option parsing, printing, throughput in floating point, address resolution, event channels: I/O and library calls; their abstract effect is a parameter of the model.
- `wbenchmark.c` and `rbenchmark.c`: sub-cases of wr without a persistence claim.
- `rwbenchmark/`: repeats rdma-example, and its server never sets a connection up.
- `cnt_str`, `size_to_count`, `do_poll`, `get_rdma_addr`, the scripts and plots: trivial, wrappers, or data.
- Failed completions in the benchmarks: the workers never look at the status of a completion, so the protocols are modelled for successful ones. What a worker counts on a connection that has gone down is therefore not modelled; `Startup` says when one is started there.
- A clock that goes back (`CLOCK_REALTIME` may): the timing results take a clock that does not.
- Protocol turns: concurrent threads are modelled as a transition system on values; the worker loops in `Workers.dfy` are imperative and run on it, for a bounded but arbitrary number of rounds.
- Connected flag: client and server have one each; the protocol has one for both, since both sides start only after their own connect_events.
- Unconnected workers: they are modelled with the metadata receive posted, that is, after route_handler got that far; a node without a queue pair is not.
- Metadata phase of many connections: the server sends and polls the metadata of all nodes in one thread before it starts its workers; in `Cluster` each connection does it on its own, which allows more interleavings.
- Different message sizes on the two hosts: the metadata carries the server's length but the writes use the client's; the model has one size.
- Workers.Testbed.Worker: does not model the latency readings; those are in `Statistics`. The wr worker has no send latency, its other statistics are the same.
- Session.RunSession: the two programs take turns as the exchange forces them to, and posts succeed; allocation failures and zero-length memory registration are not modelled.
- Connections.Benchmark.CmaHandler: rdma_disconnect on a DISCONNECTED event, printing and rdma_reject are not modelled; they do not touch the counters.
