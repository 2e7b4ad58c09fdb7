# A verified model of the Bluetooth framework's runtime layer

This project models, in Dafny, the layer that the Bluetooth framework and its command-line tools are
built on, and proves what that layer promises over every input, every run or every interleaving:

* `ThreadLoop`, `ThreadLoopTheorems`, `LoopPriv` - the thread loop: many threads post messages under a
  lock and send a coalescing async, one loop thread drains, a synchronous call waits on a semaphore,
  exit stops the loop and discards leftovers.
* `Pipe`, `PipeTheorems`, `EuvPipe` - the pipe handle: up to three libuv pipes in one heap block, a
  mask of open pipes, deferred close callbacks, and a `data` pointer that changes owner.
* `SppDevices` - the SPP tool's device table over pseudo-terminal handles.
* `Transfer` - the START / START_ACK / bulk / EOF speed test between two ends.
* `ChannelTable`, `ChannelService`, `ChannelHandOut`, `ChannelPaths`, `ChannelExact` - the L2CAP tool's
  channel table and the service that numbers the channels: one queue, one command at a time between its
  service call and its post, and callbacks in flight; when the service may hand out an id. `ChannelList` -
  the list the tool keeps; `IdAllocator` - the allocator the ids come from.
* `BtList`, `Registry`, `Memory` - the linked list, the callback registry, the allocation tracker.
* `AdvData`, `Uuid`, `Addr`, `Hash` (with `Bytes` and `Seqs`) - advertising data, UUIDs, addresses, the hash.
* `StateMachine` - the state machine engine.

Protocols are transition systems: a state, labels, `Enabled` and `Apply`, an invariant kept by every
label, and theorems about every sequence of labels. Code that works in place is also written as a class
or a method with loops, whose contract ties the new state to the step function that the theorems are
about.

`dafny verify dfyconfig.toml` checks everything.

## What is assumed of the environment

* libuv: `uv_async_send` sets a pending flag that the loop clears before the callback; a `uv_close`
  callback runs later and once; connect and write callbacks come before the close callback of their
  pipe; nothing is read after `uv_close`; a read stops by itself at end of file and after an error.
* Clients post to a loop between the return of `thread_loop_run` and the free in `thread_loop_exit`,
  and call `thread_loop_exit` once.
* Client functions run by a loop return. In particular they do not call `do_in_thread_loop_sync` on their
  own loop: such a call never returns (`SelfSyncNeverReturns`).
* The allocator never returns memory that is still allocated.
* In the speed test both directions keep their order, control messages arrive whole, and an end sees
  the completion of its write before the answer to it (`OvertakenNeverSettles` shows why).
* The L2CAP service gives a channel any id that no channel has at that moment, and refuses a second
  listen on a PSM it listens on (it may refuse more). Nothing else is assumed of ids: what more is needed
  for a sound table is a theorem, not an assumption.
* The L2CAP tool runs one command at a time, on one thread (tools/bt_tools.c:1967-2018), and each command
  posts its message before it returns. The order of callbacks is not assumed: in the socket client they run
  on libuv's worker pool when no external loop is set (service/ipc/socket/src/bt_socket_client.c:211-223,
  268-280), so those in flight may be posted in any order. In the build linked with the service they are
  posted by the service itself, a disconnected callback before its id is freed
  (service/src/l2cap_service.c:849-850); `LinkedBuildSound` is about that build.
* A peer reaches the service's client only over a channel whose data path is connected
  (service/src/l2cap_service.c:754-758), which takes the tool's own connect first.

## Where the code does less than one would expect

Each of these is stated with the exact condition.

* A message posted before exit's own message always runs (`PostedBeforeExitRuns`). One posted later may
  run (`PostedAfterExitMayRun`) or not: it runs if and only if it was posted before the stopping drain
  last saw the queue empty (`RunsIffPostedBeforeSeal`), and a synchronous call posted after that waits for
  ever (`PostedAfterSealIsMissed`).
* A send still comes on a freed loop if and only if some poster was between unlock and send at the free
  (`SendAfterFreeIff`), and that happens (`LateSendIsPossible`).
* In a build with RPMSG, `euv_pipe_close` after a connection leaves the unused server pipe open, and
  so the handle allocated, unless `euv_pipe_close2` was called (`CloseIsCompleteIff`, `IncompleteCloseHappens`); no callback frees
  it then (`UnclosedNeverFreed`).
* A server handle that is closed before its first connection is freed without its connect request
  (`RequestLeaksIff`, `RequestLeakHappens`).
* Disconnecting before there is a client, closing a handle made by `euv_pipe_connect`, and closing twice
  before the first connection pass a wrong pipe to `uv_close`; no other call does (`FaultIffMisuse`, `MisusesHappen`,
  `DoubleCloseHappens`).
* Restarting a read after end of file or an error without `euv_pipe_read_stop` loses the old reader,
  and nothing else does (`ReaderLeaksIff`, `ReaderLeakHappens`).
* The channel table checks neither ids nor listeners. It stays sound, and no message reaches a channel of
  another life of its id, if and only if every message fits when it is processed (`SoundIffAllFit`). The
  service reuses a freed id at once (`FreeThenAlloc`). Handing one out is safe in every continuation if and
  only if nothing under way can bring its old life into the table, no callback about the old life is in
  flight, and a new listener's PSM is free behind the queue (`HandOutIff`). The service does not wait for
  that: in the socket build a command can overtake the disconnected callback of its id's old life
  (`DisconnectOvertaken`); in both builds an accept can get the id of a stop that has not yet posted
  (`AcceptDuringStop`); and a listener whose data path fails ends without any callback and stays in the
  table (`ListenerLostForGood`). A stop that has posted never endangers its id (`StopThenReuseSafe`).
* A restart of a pseudo-terminal's read over a reader that is still there loses that reader (`ReadStart`);
  opening a device never does (`PtyOpenProcess`).
* A START from another channel takes an idle receiver, and a test that was being started with it is ignored
  there (`ForeignStartTakesReceiver`).
* A state machine's trace is bracketed if and only if no exit handler makes a transition
  (`MachineBrackets`).
* The advertising-data walker can run for ever if and only if the length exceeds 65280
  (`WalkEndsIff`); manufacturer data of more than 252 bytes, names of more than 29 bytes, generic data
  and service data do not arrive whole (`ManufacturerArrivesIff`, `NameArrivesIff`,
  `DataLosesLastByte`, `ServiceDataLost`), and a 32-bit service UUID arrives as another, 128-bit UUID
  (`Uuid32ArrivesIff`).
* UUID texts identify UUIDs if and only if the buffer has at least 37 bytes (`AmbiguousIffShort`);
  narrowing a 128-bit UUID keeps its meaning if and only if it is built on the base
  (`NarrowKeepsMeaningIff`).
* `bt_addr_swap` onto its own source reverses palindromes only (`Swap`).

## Model

| member | source | states |
|---|---|---|
| ThreadLoop.StepInv | framework/common/uv_thread_loop.c:65-132 | every critical section, send, dispatch, semaphore operation and message function keeps the protocol invariant |
| ThreadLoop.RunInv | framework/common/uv_thread_loop.c:65-337 | the invariant holds after every interleaving |
| ThreadLoopTheorems.FifoExactlyOnce | framework/common/uv_thread_loop.c:94-132 | in every reachable state posted = executed ++ in hand ++ queue ++ discarded; functions run in lock order, at most once, never for a discarded message |
| ThreadLoopTheorems.RunningIff | framework/common/uv_thread_loop.c:65-84 | the loop counts as running exactly from `set_ready` having run until `set_stop` has; `thread_loop_run` never returns before; the async is open until then |
| ThreadLoopTheorems.NoLostWakeup | framework/common/uv_thread_loop.c:94-109 | while the async is open a queued message is about to be seen by the drain, or the async is pending, or its own poster has still to send |
| ThreadLoopTheorems.LoopNotStuck | framework/common/uv_thread_loop.c:94-132 | while a sent message waits the loop thread always has a step to take, client functions being taken to return |
| ThreadLoopTheorems.BoundedDelivery | framework/common/uv_thread_loop.c:94-109 | whatever other threads do, a sent message is executed within four loop steps per message ahead of it plus at most six |
| ThreadLoopTheorems.SyncBarrier | framework/common/uv_thread_loop.c:327-337 | when the synchronous call returns its function has run exactly once, everything posted before has completed and the loop does not hold its message |
| ThreadLoopTheorems.SelfSyncNeverReturns | framework/common/uv_thread_loop.c:327-337 | while the loop thread waits inside a function, no synchronous call behind that function can return, whatever the other threads do: one made by the function itself never does |
| ThreadLoopTheorems.StackNeverTouchedAgain | framework/common/uv_thread_loop.c:86-92 | in no continuation does the loop thread touch the stack message of a call that returned |
| ThreadLoopTheorems.ExitFindsLoopRunning | framework/common/uv_thread_loop.c:206-216 | after `thread_loop_run` returned, exit always finds the loop running |
| ThreadLoopTheorems.ExitDiscardsSuffix | framework/common/uv_thread_loop.c:206-235 | leftovers are freed after the loop thread drained and signalled; posted = executed ++ discarded, cut where the stopping drain saw the queue empty |
| ThreadLoopTheorems.MissedMessageNeverRuns | framework/common/uv_thread_loop.c:94-109 | a message posted after that last look runs in no continuation and its call never returns |
| ThreadLoopTheorems.RunsIffPostedBeforeSeal | framework/common/uv_thread_loop.c:206-235 | once the loop thread has quit, a message has run or will run if and only if it was posted before the last look |
| ThreadLoopTheorems.PostedBeforeExitRuns | framework/common/uv_thread_loop.c:206-235 | a message posted before exit's stop message has run exactly once when the loop thread has quit |
| ThreadLoopTheorems.PostedAfterExitMayRun | framework/common/uv_thread_loop.c:206-235 | one posted after it can still run |
| ThreadLoopTheorems.PostedAfterSealIsMissed | framework/common/uv_thread_loop.c:327-337 | a synchronous call on a loop not yet freed can be posted and sent too late to run |
| ThreadLoopTheorems.OnlyLateSendsTouchFreedLoop | framework/common/uv_thread_loop.c:311-325 | after the free the only steps left are returns of synchronous calls and sends by posters caught between unlock and send |
| ThreadLoopTheorems.SendAfterFreeIff | framework/common/uv_thread_loop.c:311-325 | after the free a send is still to come if and only if some poster was caught there |
| ThreadLoopTheorems.LateSendIsPossible | framework/common/uv_thread_loop.c:311-325 | such a send can happen |
| LoopPriv.Loop.constructor | framework/common/uv_thread_loop.c:139-166 | the initial state of the protocol |
| LoopPriv.Loop.Enqueue | framework/common/uv_thread_loop.c:311-325 | the locked part of a post is the protocol's post step |
| LoopPriv.Loop.AsyncSend | framework/common/uv_thread_loop.c:311-325 | the send is the protocol's send step |
| LoopPriv.Loop.RemoveHead | framework/common/uv_thread_loop.c:94-109 | the locked part of one turn of the drain is the protocol's take step |
| LoopPriv.Loop.SetReadyFunc | framework/common/uv_thread_loop.c:65-73 | `set_ready` is the protocol's call step for that message |
| LoopPriv.Loop.SetStopFunc | framework/common/uv_thread_loop.c:75-84 | `set_stop` is the protocol's call step for that message |
| LoopPriv.Loop.SyncFunc | framework/common/uv_thread_loop.c:86-92 | the first half of the synchronous callback |
| LoopPriv.Loop.SignalCaller | framework/common/uv_thread_loop.c:86-92 | the semaphore post of the synchronous callback |
| LoopPriv.Loop.MessageCallback | framework/common/uv_thread_loop.c:94-109 | whatever calls other threads make between its turns, the drain executes the queue and all that was posted before it saw the queue empty, in order, and the whole callback with those calls is a valid run of the protocol |
| LoopPriv.Loop.FreeLeftovers | framework/common/uv_thread_loop.c:206-235 | the last loop of exit discards exactly the queue |
| Pipe.StepInv | framework/common/euv_pipe.c:53-577 | every call and callback other than a misuse keeps the handle's invariant |
| Pipe.FaultIffMisuse | framework/common/euv_pipe.c:498-577 | a step closes a wrong pipe or frees a wrong pointer if and only if it is one of three misuses a caller can check |
| PipeTheorems.RunInv | framework/common/euv_pipe.c:53-577 | the invariant holds after every run |
| PipeTheorems.FreedOnceWithLastBit | framework/common/euv_pipe.c:120-149 | the handle is freed at most once, exactly when the last status bit clears, which is when every initialised pipe was closed and called back; a pending close callback's bit is set |
| PipeTheorems.CloseCallbackRunsIff | framework/common/euv_pipe.c:120-149 | over every run the caller's close callback has run, once, if and only if the handle is freed and the last close of the run carried one |
| PipeTheorems.NothingAfterFree | framework/common/euv_pipe.c:120-149 | after the free no callback of any kind is still to come |
| PipeTheorems.QuiescentFreedIffAllClosed | framework/common/euv_pipe.c:120-149 | when libuv owes nothing, the handle is freed if and only if every pipe was closed |
| PipeTheorems.CloseIsCompleteIff | framework/common/euv_pipe.c:498-526 | close closes every pipe of a server handle if and only if no connection was accepted, or there is no RPMSG pipe, or the unused server was closed before |
| PipeTheorems.CloseClosesWhatServed | framework/common/euv_pipe.c:498-526 | a close closes the client pipe and the server that took the last connection of the run; before any connection every server |
| PipeTheorems.Close2ClosesUnused | framework/common/euv_pipe.c:552-577 | `euv_pipe_close2` closes the other server and only that, after which a close is complete; before any connection it does nothing |
| PipeTheorems.DisconnectClosesClient | framework/common/euv_pipe.c:533-549 | a disconnect closes the client pipe and no other |
| PipeTheorems.DataOwner | framework/common/euv_pipe.c:201-266 | `cli_pipe.data` is null, a live reader while not closing, or the handle while closing; each reader is freed at most once |
| PipeTheorems.StartReads | framework/common/euv_pipe.c:201-240 | a start on an open idle client pipe puts a new reader in place and reads, or frees it when libuv refuses |
| PipeTheorems.StopFreesReader | framework/common/euv_pipe.c:242-266 | a stop on an open client pipe frees its reader and ends the read; on a closing one it does nothing |
| PipeTheorems.ReaderLeaksIff | framework/common/euv_pipe.c:201-240 | a reader is lost by exactly one kind of step: a restart after libuv stopped the read by itself |
| PipeTheorems.BuffersFreedOnce | framework/common/euv_pipe.c:170-189 | each framework buffer is freed once, in order, whatever the read callback did to the pipe |
| PipeTheorems.BufferOwnerIff | framework/common/euv_pipe.c:151-189 | whatever happens in between, a buffer delivered to a reader is the framework's if and only if that read was started without an allocator |
| PipeTheorems.ReadFindsLiveReader | framework/common/euv_pipe.c:151-189 | every read that libuv delivers finds a live reader |
| PipeTheorems.RequestLeaksIff | framework/common/euv_pipe.c:406-496 | a freed server handle has lost its connect request if and only if it never had a connection |
| PipeTheorems.RequestLeakHappens | framework/common/euv_pipe.c:498-526 | and that happens: open, close, close callback |
| PipeTheorems.ReaderLeakHappens | framework/common/euv_pipe.c:201-240 | connect, read, end of file, read again loses the first reader |
| PipeTheorems.UnclosedNeverFreed | framework/common/euv_pipe.c:120-149 | callbacks close nothing: a handle with an open pipe is freed by no sequence of them |
| PipeTheorems.IncompleteCloseHappens | framework/common/euv_pipe.c:498-526 | with RPMSG, open, accept and close leave such a handle |
| PipeTheorems.MisusesHappen | framework/common/euv_pipe.c:498-577 | disconnecting before there is a client and closing a client handle fault in reachable states |
| PipeTheorems.DoubleCloseHappens | framework/common/euv_pipe.c:498-526 | so does closing twice before the first connection |
| EuvPipe.SetBit | framework/common/euv_pipe.c:53-80 | setting a mask bit adds that pipe and no other |
| EuvPipe.ClearBit | framework/common/euv_pipe.c:120-149 | clearing a mask bit removes that pipe and no other |
| EuvPipe.PipeHandle.Open | framework/common/euv_pipe.c:406-496 | the initial state of a server handle |
| EuvPipe.PipeHandle.Connect | framework/common/euv_pipe.c:307-357 | the initial state of a client handle |
| EuvPipe.PipeHandle.ListenCallback | framework/common/euv_pipe.c:53-118 | the listen callbacks are the protocol's listen step |
| EuvPipe.PipeHandle.ReadStart | framework/common/euv_pipe.c:201-240 | read start is the protocol's step, error paths included |
| EuvPipe.PipeHandle.ReadStop | framework/common/euv_pipe.c:242-266 | read stop is the protocol's step |
| EuvPipe.PipeHandle.Disconnect | framework/common/euv_pipe.c:533-549 | disconnect is the protocol's step |
| EuvPipe.PipeHandle.CloseWithCb | framework/common/euv_pipe.c:498-526 | close is the protocol's step |
| EuvPipe.PipeHandle.Close2 | framework/common/euv_pipe.c:552-577 | closing the unused server is the protocol's step |
| EuvPipe.PipeHandle.CloseCallback | framework/common/euv_pipe.c:120-149 | the close callback, on the bit mask, is the protocol's step; with the free, and only then, the caller's callback runs if there is one |
| SppDevices.StepInv | tools/spp.c:244-336 | every open, read error, disconnect and close callback keeps the table, handle and reader accounting |
| SppDevices.ClosedOnceFreedOnce | tools/spp.c:244-293 | for every order of events each pty is closed and freed at most once, each reader freed at most once and no later than its pty, and an error always finds its device |
| SppDevices.NothingLeaks | framework/common/euv_pty.c:45-50 | when no close callback is owed, exactly the ptys in the table are still allocated |
| SppDevices.DisconnectClosesItsPort | tools/spp.c:262-274 | after every run a disconnect closes the earliest opened of the listed devices that were opened for its port, and no other; without one it changes nothing |
| SppDevices.ReadErrorClosesItsPty | tools/spp.c:244-260 | a read error closes exactly the pty it came from and frees its reader |
| SppDevices.OpenListsItsPort | tools/spp.c:311-336 | an open lists one more device, of its port, which is read exactly if libuv starts the read |
| SppDevices.SppTable.FindByPty | tools/spp.c:122-138 | finds the first device of a pty |
| SppDevices.SppTable.FindByPort | tools/spp.c:104-120 | finds the first device of a port |
| SppDevices.SppTable.ReadStart | framework/common/euv_pty.c:93-117 | an active handle is left alone; otherwise the handle holds a reader exactly if libuv accepts, else the reader is freed; a reader that was there is lost |
| SppDevices.SppTable.ReadStop | framework/common/euv_pty.c:129-141 | the handle's reader, if any, is freed and the handle is inactive: the protocol's step |
| SppDevices.SppTable.Close | framework/common/euv_pty.c:192-198 | one more close call, its callback owed, no more reads |
| SppDevices.SppTable.CloseCallback | framework/common/euv_pty.c:45-50 | reader and handle are freed: the protocol's step |
| SppDevices.SppTable.PtyReadError | tools/spp.c:244-260 | stopping, finding, closing and unlinking, on handles and table, add up to the protocol's step: that pty is closed if it has a device |
| SppDevices.SppTable.CheckResourceRelease | tools/spp.c:262-274 | so do finding, closing and unlinking after a disconnect: the first device of the port leaves and its pty is closed; no reader is lost |
| SppDevices.SppTable.PtyOpenProcess | tools/spp.c:311-336 | so do allocating a handle, listing it for its port and starting its read; no reader is lost; a pty that cannot be initialised changes nothing |
| Transfer.StepInv | tools/l2cap.c:127-228 | every delivery, however cut, every completion, every request for a test at any time and everything that other channels send keeps the transfer invariant |
| Transfer.Conservation | tools/l2cap.c:127-136 | while a bulk write is outstanding and the receiver is still counting, received + in flight + unwritten = the announced total |
| Transfer.EofExactlyAtTotal | tools/l2cap.c:177-228 | one EOF per test, exactly when the total has arrived; every finished test moved exactly its total; no counter wraps |
| Transfer.IdleMeansClean | tools/spp.c:195-242 | an idle sender means both contexts cleared, channels empty, no write outstanding and every test reported |
| Transfer.AsideChangesNothing | tools/l2cap.c:418-421 | a test asked for while one runs, and what is not a message of the test, change nothing at all |
| Transfer.IgnoredIffNoise | tools/l2cap.c:177-228 | an end ignores what it reads if and only if that is no message of a test; in particular data from another handle is never counted into a running test |
| Transfer.ForeignStartTakesReceiver | tools/l2cap.c:186-198 | a START from another handle takes an idle receiver, and the sender's own START is then ignored |
| Transfer.NotStuck | tools/spp.c:140-242 | a test that is not over can always continue |
| Transfer.TransferEnds | tools/spp.c:140-242 | every test ends within a bound fixed at its start, whatever else arrives, and a run after which it cannot go on has both ends idle |
| Transfer.OvertakeIff | tools/l2cap.c:177-228 | the answer can overtake a completion exactly when it is EOF and the last write has not completed |
| Transfer.OvertakenNeverSettles | tools/l2cap.c:127-136 | after that each of the next 2^31 completions starts another write, in the same transition system |
| Transfer.TransferEnd.DataReceived | tools/l2cap.c:177-228 | the receive handler is the step the theorems are about; a running test is untouched by data from another handle |
| Transfer.TransferEnd.BulkTransComplete | tools/spp.c:140-149 | so is the completion handler |
| Transfer.TransferEnd.SpeedTest | tools/l2cap.c:398-433 | so is the start of a test, which leaves a running one alone |
| ChannelTable.ProcessSoundIff | tools/l2cap.c:247-396 | a message keeps a sound table sound if and only if the id it brings is gone and its PSM has no other listener |
| ChannelTable.AcceptReplacesListener | tools/l2cap.c:277-316 | an accept makes the listener a connected channel, adds exactly its replacement, which is then the only listener of the PSM, and changes nothing else |
| ChannelTable.ClientConnected | tools/l2cap.c:277-316 | a connected message of a client channel stores the cid in the first channel of its id and changes nothing else; a read that cannot be started removes that channel |
| ChannelTable.StopLeavesNone | tools/l2cap.c:370-396 | after a stop the PSM has no listener, and no other PSM is affected |
| ChannelService.SoundIffAllFit | tools/l2cap.c:247-396 | for every run of service and tool, whatever ids are reused and in whatever order callbacks come, the table is sound and no message reached another life in all states if and only if every message fits when processed |
| ChannelHandOut.StepInv | service/src/l2cap_service.c:730-850 | every service step, post and processed message keeps the invariant when ids are handed out only when ready |
| ChannelHandOut.TableSound | service/src/l2cap_service.c:249-289 | then, for every interleaving, callback order, failing pipe and reuse, ids are unique, each PSM has at most one listener and no message reaches another life of its id, throughout |
| ChannelHandOut.StopIsFinal | tools/l2cap.c:370-396 | a processed stop leaves no listener, and nothing but a later listen command brings one back, however late the callbacks |
| ChannelHandOut.ReusedAfterStop | tools/l2cap.c:702-732 | behind a posted stop the freed id is ready for a client if and only if no callback about a still older life is in flight; for a listener if besides its PSM is free, as the stopped PSM always is |
| ChannelHandOut.LinkedBuildSound | service/src/l2cap_service.c:826-851 | when callbacks are posted by the service itself, commands are not interrupted, data paths hold and accepts find a replacement, every id handed out is ready and the table is sound throughout |
| ChannelPaths.AcceptedIsListed | service/src/l2cap_service.c:730-824 | a listener that a peer can connect to is in the table with its PSM and its life, and still is when the queue is processed: an accept finds its listener |
| ChannelPaths.AcceptArrives | service/src/l2cap_service.c:730-824 | with nothing else under way a peer's connection turns the listener into the accepted channel with its cid and adds the replacement with the listener's PSM; no other channel changes |
| ChannelPaths.ConnectionArrives | service/src/l2cap_service.c:730-824 | a client's connection arrives as its cid in its channel and nothing else |
| ChannelPaths.DisconnectionArrives | service/src/l2cap_service.c:826-851 | a disconnection arrives as the end of its channel and nothing else, and the id is free |
| ChannelExact.HandOutIff | service/src/l2cap_service.c:249-289 | in every reached state, with anything queued and in flight, handing out an id to a listener, a client or a replacement endangers no continuation if and only if the id is ready |
| ChannelExact.StopThenReuseSafe | tools/l2cap.c:702-732 | the id of a posted stop, handed out next, is safe in every continuation if and only if no callback about a life before the stopped one is in flight, and for a listener its PSM is free: the stop itself never endangers it |
| ChannelExact.QuietReadyIff | service/src/l2cap_service.c:249-289 | with nothing under way an id is ready if and only if the table does not have it and, for a listener, has none of its PSM |
| ChannelExact.DisconnectOvertaken | service/src/l2cap_service.c:826-851 | a reused id whose disconnected callback is still in flight is in the table twice until that is processed |
| ChannelExact.AcceptDuringStop | service/src/l2cap_service.c:1304-1336 | an accept between the service call of a stop and its post can get the freed id, which is then in the table twice until the stop is processed |
| ChannelExact.ListenerLostForGood | service/src/l2cap_service.c:540-579 | a listener whose data path fails ends without a callback and stays beside the next one, with nothing under way |
| IdAllocator.Allocator.constructor | service/common/index_allocator.c:22-36 | no id is used |
| IdAllocator.Allocator.Alloc | service/common/index_allocator.c:46-69 | the first unused id from the next one on, going around; none if and only if all are used |
| IdAllocator.Allocator.Free | service/common/index_allocator.c:71-83 | the id is unused, and next if it is lower |
| IdAllocator.Allocator.FreeThenAlloc | service/common/index_allocator.c:71-83 | a freed id below the next one is handed out next |
| ChannelList.List.FindById | tools/l2cap.c:100-115 | finds the first channel of an id |
| ChannelList.List.AddChannelTo | tools/l2cap.c:247-275 | adding is the table step: one more channel, last, exactly if its pipe connects; every pipe connected is a channel's or disconnected, exactly once |
| ChannelList.List.ConnectedProcess | tools/l2cap.c:277-316 | the connected message is the table step and keeps that balance; the first channel of the id gets the cid, or leaves if its read cannot be started |
| ChannelList.List.DisconnectedProcess | tools/l2cap.c:318-343 | the disconnected message is the table step: the first channel of the id leaves and its pipe is disconnected, and a transfer on that pipe and no other is reset |
| ChannelList.List.StopListenProcess | tools/l2cap.c:370-396 | the stop message is the table step: the first listener of the PSM leaves and its pipe is disconnected |
| BtList.RemoveFirstMultiset | framework/common/bt_list.c:150-168 | removing takes out one occurrence, the first |
| BtList.ForeachRemovesSelected | framework/common/bt_list.c:197-208 | a foreach takes out exactly the payloads its callback removed, however payloads repeat |
| BtList.ForeachKeepsOrder | framework/common/bt_list.c:197-208 | with distinct payloads a foreach leaves exactly those its callback did not remove, in their order |
| BtList.FirstInFirstOut | framework/common/bt_list.c:119-148 | over every history of tail adds and head removals what went and what is left is, in order, what was there and what came |
| BtList.LastInFirstOut | framework/common/bt_list.c:119-148 | removing the head node undoes an add at the head |
| BtList.HistoryBalanced | framework/common/bt_list.c:56-208 | over every history of two lists, remove_node and foreach included, each payload added is in a list or was freed, as often as it was added |
| BtList.List.constructor | framework/common/bt_list.c:33-44 | an empty ring |
| BtList.List.Add | framework/common/bt_list.c:119-139 | the ring represents the payload followed by the old contents, or the old contents followed by the payload |
| BtList.List.RemoveNode | framework/common/bt_list.c:141-148 | that node leaves, its payload is freed once |
| BtList.List.Remove | framework/common/bt_list.c:150-168 | the first match leaves and is freed once; without a match nothing changes |
| BtList.List.Clear | framework/common/bt_list.c:56-71 | every payload is freed once, in order, and the list is empty |
| BtList.List.Find | framework/common/bt_list.c:210-224 | the first payload satisfying the predicate, found if and only if there is one |
| BtList.List.Foreach | framework/common/bt_list.c:197-208 | every initial element is visited once, in order, even if the callback removes the one being visited; contents and frees follow |
| BtList.List.MoveWithin | framework/common/bt_list.c:170-195 | moving within one list keeps its nodes and frees nothing; the first match is then at the chosen end, the rest in order |
| BtList.Move | framework/common/bt_list.c:170-195 | moving between lists takes the first match over to the chosen end and frees nothing |
| Registry.HistoryInv | framework/common/callbacks_list.c:67-135 | over every history the count is the number of entries, within the maximum, and keys are distinct |
| Registry.DistinctKeys | framework/common/callbacks_list.c:25-37 | no shared cookies, no shared non-null remotes, no shared callbacks of null-remote entries |
| Registry.RegisterThenUnregister | framework/common/callbacks_list.c:67-135 | a registration is accepted if and only if there is room and, for a remote, no entry has that remote, for a local client, no entry has those callbacks; it is then last, and unregistering restores the registry |
| Registry.HeldIffSurvives | framework/common/callbacks_list.c:67-135 | an entry is held if and only if some call registered it and no call since has unregistered its cookie |
| Registry.CallbacksList.RegisterRemote | framework/common/callbacks_list.c:77-109 | a cookie is returned exactly when there is room and no entry has that remote, or for a null remote those callbacks; the entry is then last in the list |
| Registry.CallbacksList.UnregisterRemote | framework/common/callbacks_list.c:111-135 | succeeds exactly for registered cookies, returns their remote, and takes out that entry alone |
| Registry.CallbacksList.Count | framework/common/callbacks_list.c:154-165 | the number of entries |
| Memory.PeakIsMaximum | debug/bt_memory.c:53-88 | at every point of every history the total is the sum of live sizes and the peak is the greatest total so far |
| Memory.ReportIsUnfreed | debug/bt_memory.c:147-166 | the list holds exactly the blocks allocated and not freed, each once, newest first |
| Memory.AbortsIff | debug/bt_memory.c:106-145 | a free fails if and only if the pointer is not live or a guard was overwritten |
| Memory.Block.CheckGuards | debug/bt_memory.c:106-145 | accepts exactly intact guards |
| Memory.Manager.MallocHook | debug/bt_memory.c:53-88 | the linked list, the total and the peak follow the allocation step |
| Memory.Manager.FreeHook | debug/bt_memory.c:106-145 | they follow the free step; exactly the matching node is unlinked |
| Memory.Manager.ReportLeak | debug/bt_memory.c:147-166 | the report lists the live blocks in list order |
| AdvData.BuildThenWalk | framework/common/advertiser_data_helper.c:203-215 | walking what was built visits exactly the encoded records, in order, and stops at the end; up to 255 records always fit |
| AdvData.WalkCovers | framework/common/advertiser_data_helper.c:203-215 | on any data the visited frames joined are the data up to where the walk stopped |
| AdvData.WalkEndsIff | framework/common/advertiser_data_helper.c:203-215 | the walk ends on all data of a length if and only if that length is at most 65280 |
| AdvData.SmallRecordsArrive | framework/common/advertiser_data.c:106-191 | flags, appearance and service UUIDs of 16 and 128 bits arrive whole |
| AdvData.ValuesInFrames | framework/common/advertiser_data.c:106-157 | in the assigned numbers: length, type and, least significant byte first, the value of flags, appearance, 16-bit UUID and company id frames |
| AdvData.Uuid32ArrivesIff | framework/common/advertiser_data.c:159-191 | a 32-bit service UUID arrives as the raw union bytes marked as 128 bits; they are the widened UUID for one value with one filling only, never when zero-filled |
| AdvData.NameArrivesIff | framework/common/advertiser_data.c:89-104 | a name arrives whole and marked complete if and only if it has at most 29 bytes; a longer one arrives cut to 29 bytes and marked short; when a cut name is marked complete |
| AdvData.ManufacturerArrivesIff | framework/common/advertiser_data.c:144-157 | manufacturer data arrives whole if and only if it has at most 252 bytes |
| AdvData.DataLosesLastByte | framework/common/advertiser_data.c:129-138 | generic data never arrives whole; what does arrive |
| AdvData.ServiceDataLost | framework/common/advertiser_data.c:193-229 | of service data nothing arrives but what was copied of the UUID, which for 32 bits is the raw union bytes |
| AdvData.Advertiser.AddServiceUuid | framework/common/advertiser_data.c:159-191 | adds a record exactly for the known UUID types |
| AdvData.Advertiser.AddServiceData | framework/common/advertiser_data.c:193-229 | adds a record exactly for the known UUID types |
| AdvData.Advertiser.CalcLen | framework/common/advertiser_data.c:33-38 | the length pass gives the length of the encoding in 16 bits |
| AdvData.Advertiser.BuildBuffer | framework/common/advertiser_data.c:61-87 | the buffer is the encoding; the copy overruns it if and only if the encoding exceeds 65535 bytes; no records, no buffer |
| AdvData.Dump | framework/common/advertiser_data_helper.c:203-215 | on any data, the frames visited and the offset after any number of turns of the loop |
| AdvData.DumpEnds | framework/common/advertiser_data_helper.c:203-215 | on data of up to 65280 bytes, and on all data built from records, the loop has ended after as many turns as there are bytes, having visited the frames of the walk; on built data these are the records |
| Uuid.NarrowWiden | framework/common/bt_uuid.c:35-50 | narrowing undoes 16-bit widening, keeps a 16-bit UUID, and of a 32-bit one leaves the target as it was |
| Uuid.NarrowKeepsMeaningIff | framework/common/bt_uuid.c:79-94 | narrowing a 128-bit UUID keeps its meaning if and only if it is built on the base |
| Uuid.WidthsAgree | framework/common/bt_uuid.c:52-77 | short UUIDs of either width compare equal if and only if their values are equal |
| Uuid.CompareIsOrder | framework/common/bt_uuid.c:153-162 | the comparison is a total order on widened values |
| Uuid.FirstDifferenceDecides | framework/common/bt_uuid.c:153-162 | the sign is that of the first byte that differs |
| Uuid.TextOfBytes | framework/common/bt_uuid.c:164-184 | the six printed words are the sixteen bytes, most significant first, grouped 8-4-4-4-12 |
| Uuid.TextOfEach | framework/common/bt_uuid.c:164-184 | a 128-bit UUID prints as its bytes, a short one as eight digits on the Bluetooth base -0000-1000-8000-00805f9b34fb |
| Uuid.TextAgreesWithCompare | framework/common/bt_uuid.c:164-184 | with 37 bytes of room two UUIDs print alike if and only if they compare equal |
| Uuid.AmbiguousIffShort | framework/common/bt_uuid.c:164-184 | different UUIDs can print alike if and only if the buffer is shorter |
| Addr.Bachk | framework/common/bt_addr.c:30-53 | accepts exactly six colon-separated pairs of hexadecimal digits |
| Addr.Str2ba | framework/common/bt_addr.c:91-104 | parses exactly those, the first pair into the most significant byte, and zeroes the address otherwise |
| Addr.ParsePrint | framework/common/bt_addr.c:72-104 | every address prints in upper case as a text that parses back to it |
| Addr.PrintParse | framework/common/bt_addr.c:72-104 | printing a parsed text gives its upper-case form |
| Addr.ReversedTwice | framework/common/bt_addr.c:111-115 | byte i goes to place 5 - i; swapping twice is the identity |
| Addr.Swap | framework/common/bt_addr.c:111-115 | reverses into another array; onto its own source it mirrors the low half, which is the reversal of palindromes only |
| Hash.ShiftAddIs33 | framework/common/bt_hash.c:18-19 | the shift-and-add macro in 32 bits multiplies by 33 |
| Hash.BtHash4 | framework/common/bt_hash.c:20-51 | the unrolled loop entered through the switch equals the plain fold and reads exactly every byte |
| Hash.FoldIsPolynomial | framework/common/bt_hash.c:18-51 | the fold is the polynomial in 33 modulo 2^32 |
| StateMachine.ExitTransitionBreaks | framework/common/state_machine.c:36-44 | a transition from an exit handler logs two exits in a row |
| StateMachine.RunBrackets | framework/common/state_machine.c:36-44 | over every run, nested transitions included, the trace is bracketed if and only if no exit handler that ran made a transition |
| StateMachine.RunEnters | framework/common/state_machine.c:36-44 | over every run, whatever the handlers do, exactly the states asked for are entered, in the order in which the calls take effect |
| StateMachine.RunCurrent | framework/common/state_machine.c:36-44 | over every run the current state is the last entered and the previous the one entered before it |
| StateMachine.MachineBrackets | framework/common/state_machine.c:20-44 | the same from construction on; then the current state is the last entered and the previous the last exited |
| StateMachine.Machine.constructor | framework/common/state_machine.c:20-29 | construction is the initial transition |
| StateMachine.Machine.TransitionTo | framework/common/state_machine.c:36-44 | the method is the transition the theorems are about |
| StateMachine.Machine.DispatchEvent | framework/common/state_machine.c:92-99 | without a current state nothing happens; with one the handler's transitions are made and its result returned |

## Left out

- framework/api, framework/binder and feature/src: forwarding code to parts that are not modelled.
- Command parsing, help tables and printing of the tools; tools/storage_transform.c; debug/bt_trace.c.
- Thread loop without its own thread, failed initialisation, posts before the loop runs or after it is freed.
- Timers of the thread loop, thread priorities and names.
- Failed `uv_pipe_init` and `uv_accept` in the listen callback and the error exits of `euv_pipe_open`.
- The two-second timeout of the speed test, which resets the context from another thread, and tests of zero bulks.
- Control messages of the speed test that arrive cut or glued to bulk bytes.
- The reset of the transfer context by every SPP disconnect (tools/spp.c:284-290), whichever port it is about.
- Failing allocation, logging, clocks and syslog output.
- The size arithmetic of `bt_calloc_hook`.
- LoopPriv.Loop.ClientFunc: what a client's function does besides returning is not modelled.
- EuvPipe.PipeHandle.UvClosePipe: libuv's side of `uv_close` is recorded, not modelled further.
- ChannelService: a PSM kept busy by an accepted channel, and the limits on the number of ids and PSMs, are not modelled: the service of the model may hand out more than the real one, so the safety results cover more runs; the runs that show a condition necessary use posts and processing only.
- ChannelHandOut.LinkedBuildSound: a service step between a command's call and its post, a failing data path and an accept without replacement are excluded; the first two can make the table unsound there too (`AcceptDuringStop`, `ListenerLostForGood`).
- Transfer.OvertakenNeverSettles: stops where the signed 32-bit counter would overflow.
- BtList.List.Foreach: the callback may remove its own argument and nothing else.
- Registry.CallbacksList.RegisterRemote: runs under the registry's lock, so calls are atomic; the lock itself is not modelled.
- AdvData.Dump: the loop is followed for a given number of turns, because on some data above 65280 bytes it does not end (`WalkEndsIff`).
- Addr.Strtol16: `strtol` is modelled on texts that start with two hexadecimal digits, the only ones it is called with.
