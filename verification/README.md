# Verification model of handy

handy is a C++11 reactor: one event loop per thread with timers, idle lists, framed TCP connections, an epoll dispatcher
and a task queue that other threads post to. This project models its stateful core in Dafny and proves what the core is
for. System calls are parameters: the bytes a read returns, how much a write takes, the clock, and what user callbacks
do are all arbitrary unless a lemma says otherwise.

Objects whose methods update fields are classes with loops and in-place updates; each method is proved equal to a
function of the old state, and the theorems are about that function over every run. Threads are interleaved atomic steps.

| file | models |
|---|---|
| `Timers`, `TimerDrain`, `TimerSleep`, `TimerRuns`, `EventsImp` | the two timer maps, catch-up firing, the sleep bound, and what runAt and cancel promise over whole runs |
| `IdleLists`, `IdleRuns` | idle lists, the once-a-second round over them, and who is called when over whole runs |
| `Buffers` | the sliding buffer, its copying cost and its growth |
| `ByteOrder`, `Codecs`, `Framing`, `TcpInput` | byte order, the three codecs, how messages come out of a stream, the read loop |
| `Sending`, `TcpOutput` | the write loop, the ways to send, write events |
| `SafeQueue`, `Wakeup` | the blocking queue with its thread pool, and safeCall with its pipe |
| `Poller` | dispatch under removal |
| `Lifecycle`, `Connection` | the connection's states, input and output together, with callbacks that send and close running inside one another; and the connection object |
| `Transitions` | exactly which event takes a connection into which state, and what it reports and registers |
| `Reentry`, `Mishaps`, `Nests` | exactly which events go wrong and how, and when a nest of callbacks ends |
| `Outflow` | the output of every run, whether or not something goes wrong in it |
| `Slices`, `Numbers`, `Http`, `HttpMessages`, `HttpLines`, `HttpParser` | the resumable HTTP parser and the printer (section 3 of RFC 7230) |
| `ProtoMsg` | length-prefixed protobuf frames, with the serialiser as a parameter |
| `Bytes`, `Arith`, `Sums` | octets and small helpers |

Where a promised property is false of the code, the model keeps the code and proves exactly when the property holds:

- A timer that is overdue by more than 2^31 ms modulo 2^32 can make the loop sleep past it (`RefreshWakesInTime`).
- A buffer that is read into grows without bound while a reader leaves bytes behind (`ReadingOutgrowsTheContents`), and
  one that is only appended to does not (`CapacityIsBounded`).
- A handle undoes its runAt only when the sign of the time fits the kind of timer (`CancelUndoesRunAt`).
- The walk over an idle list does not end when the idle time is zero or negative (`WalkEndsExactly`).
- A lone EOT byte makes the line and bracket codecs depend on how bytes arrive (`SplitsAgreeExactly`,
  `MessagesSurviveExactly`).
- Only send of a byte range can strand bytes, on an error the write loop does not tell apart (`CallStrandsExactly`).
- Write interest stays on with nothing queued after some flushes (`FlushLeavesIdleInterestExactly`).
- A write event whose callback is reset can use a null channel (`HandleWriteFaultsExactly`).
- A message is delivered twice, and bytes are consumed that are not its own, when its callback closes the channel at once
  or makes a send that meets a reset (`DeliversOnceExactly`, `ClosingCallbackFaultsExactly`, `ClosingInPlaceFaults`);
  which events leave a connection in order is `StepIsOrderlyExactly`.
- A send of a buffer, of a message or of the output buffer by a callback that runs on a closed descriptor stops the
  program at a fatal check (`AbortsExactly`). Two pipelined HTTP/1.0 requests are enough for the handler in
  `examples/http-hello.cc` to do so (`PipelinedRequestAborts`).
- A nest of such callbacks need not end (`NestEndsExactly`, `EchoNeverEnds`).
- A cleanup whose own run of the read callback closes the channel repeats callbacks or erases a node twice
  (`CleanupGoesWrongExactly`).
- Bytes of a partial message are carried into the next connection after a reconnect (`CarriedOverExactly`), and malformed
  ones for good (`MalformedCarriesOver`).
- A message that begins with a blank line is never complete and never an error (`EmptyBlockNeverCompletes`).
- The status of a response without a second word in its start line is read from whatever follows the line, and from
  behind the input when nothing does (`ResponseResumesExactly`, `BareVersionReadsOn`).
- A printed start line is cut off at a NUL byte or at the end of its buffer (`StartLineIsWholeExactly`).
- A protobuf frame of 4 GiB or more does not come back (`FrameRoundTripExactly`), and decode reads outside the bytes it
  was given when a frame is shorter than its own name (`StaysInsideExactly`).

Two places where documentation and code differ, and the model follows the code: cancel is documented to ignore removed
timers, but a repeating handle must be live; and the idle walk stamps and moves nodes of a copy of the list, so a
connection that stays idle is called again in every round (`QuietRoundChangesNothing`).

## Model

| member | source | states |
|---|---|---|
| Timers.DoKeepsInv | handy/event_base.cc:271-310 | runAt and cancel keep the pairing of the two maps, the bound on sequence numbers, and every repeating timer on its beat |
| Timers.FireKeepsInv | handy/event_base.cc:263-269 | so does firing the first thunk, even though a repeating one re-arms itself before its callback |
| Timers.CancelUndoesRunAt | handy/event_base.cc:275-295 | cancelling the returned handle restores both maps and reports success, if and only if the time is positive (repeating) or not negative (one-shot) |
| Timers.DoKeepsUnshared | handy/event_base.cc:276-285 | no two keys or handles share a sequence number after a call |
| Timers.FireKeepsUnshared | handy/event_base.cc:265 | nor after a firing |
| TimerDrain.TurnProgress | handy/event_base.cc:196-200 | one turn of the loop keeps the invariant and lowers the firings still owed, when callbacks schedule only later than `now`: the termination argument |
| TimerDrain.DrainOrder | handy/event_base.cc:196-200 | fired keys are strictly increasing and none is later than `now` |
| TimerDrain.DrainLeavesOnlyLater | handy/event_base.cc:191-200 | everything left is strictly later than `now`, while the sequence counter is below the sentinel |
| TimerDrain.RepeatingFiresExactly | handy/event_base.cc:189-203 | an uncancelled repeating timer runs its task once for each of its instants up to `now`, in order, and is left at the first instant after it |
| TimerDrain.ScheduleCounts | handy/event_base.cc:263-269 | there are (now - at) / interval + 1 of those instants, and the next one is at most an interval after `now` |
| TimerDrain.OneShotFiresExactly | handy/event_base.cc:189-203 | an uncancelled one-shot runs its task exactly once if due and is gone, and otherwise is left untouched |
| TimerDrain.DrainFiresOnlyKnown | handy/event_base.cc:196-200 | nothing fires that was not scheduled when the run began |
| TimerDrain.DrainKeepsUnshared | handy/event_base.cc:196-200 | sequence numbers stay unique through a run and whatever its callbacks do |
| TimerSleep.RefreshWakesInTime | handy/event_base.cc:253-261 | the 32-bit wait is at most the time left to the earliest timer, if and only if its overdue time reads as overdue after narrowing |
| TimerSleep.RefreshSleepsExactly | handy/event_base.cc:253-261 | the wait is exactly the time left to the earliest timer, zero if it is due, if and only if that time fits an int or still reads as overdue; without timers it is 2^30 ms |
| TimerSleep.OverdueTimerCanOversleep | handy/event_base.cc:258-259 | a concrete late timer for which the loop sleeps 65536 ms past it |
| TimerSleep.CancelWakesInTime | handy/event_base.cc:293-310 | cancel, which does not refresh, cannot break the bound |
| TimerSleep.TimeoutsWakeInTime | handy/event_base.cc:189-203 | after a run of timeouts shorter than 2^31 ms the bound holds |
| TimerSleep.RunWakesInTime | handy/event_base.cc:79-84 | in every run whose refreshes are prompt the loop never sleeps past its earliest timer |
| TimerSleep.EveryRunIsSound | handy/event_base.cc:263-310 | after any run from a new base: entries and keys paired one to one, no drift, sequence numbers unique and bounded |
| TimerRuns.RunAtKeepsItsSchedule | handy/event_base.cc:271-291 | in every run after runAt that does not cancel the handle: a one-shot runs its own task exactly once if its time is not later than the last handling of timeouts, and a repeating timer runs its own task for the time asked for and each whole interval after it up to then |
| TimerRuns.CancelStopsExactly | handy/event_base.cc:293-310 | cancel of a handle from runAt succeeds exactly while the timer has a run to come, a second cancel of a one-shot fails, and the task never runs again, however the run goes on |
| TimerRuns.CallbackCancels | handy/event_base.cc:196-200 | a cancel made by a callback takes effect at once, also on the timer whose callback it is |
| TimerRuns.CallbackSchedules | handy/event_base.cc:196-200 | a runAt made by a callback leaves a timer with its task, time and interval |
| TimerRuns.ExitStopsScheduling | handy/event_base.cc:272-274 | after exit only timers that were there run, and runAt gives a handle that stands for nothing |
| EventsImp.EventsImp.RefreshNearest | handy/event_base.cc:253-261 | the in-place refresh computes the modelled wait |
| EventsImp.EventsImp.RunAt | handy/event_base.cc:271-291 | the in-place insertion, its handle, and the refusal after exit |
| EventsImp.EventsImp.CancelTimer | handy/event_base.cc:293-310 | the in-place removal and its verdict for both kinds of handle |
| EventsImp.EventsImp.RepeatableTimeout | handy/event_base.cc:263-269 | re-arming one interval later under a new sequence number |
| EventsImp.EventsImp.HandleTimeouts | handy/event_base.cc:189-203 | the loop ends, and its state and firing log are the ones the timer theorems are about |
| IdleLists.DoKeepsInv | handy/event_base.cc:230-251 | register, unregister and update keep each list sorted by activity and each handle on one node |
| IdleLists.EveryRunIsSorted | handy/event_base.cc:230-251 | hence every run with a clock that does not go back does |
| IdleLists.CallList | handy/event_base.cc:214-226 | although it stops at the first fresh node, the walk calls exactly the due nodes of a sorted list, once each and in list order |
| IdleLists.WalkEndsExactly | handy/event_base.cc:215-226 | the walk over a list no newer than the clock ends if and only if the idle time is positive or the list is empty |
| IdleLists.SparedNodesAreCalled | handy/event_base.cc:210-228 | whatever callbacks do to other nodes during a round, a due node that none of them unregisters or updates is called |
| IdleLists.RoundCallsOnlyKnown | handy/event_base.cc:210-228 | when callbacks use times not before the round's, every call is of a node that was in its list and due when the round began: nodes registered or updated in it are not called |
| IdleLists.RoundCallsExactly | handy/event_base.cc:210-228 | so a node that callbacks leave alone is called if and only if it has been idle for its list's time |
| IdleLists.RoundCallsOnce | handy/event_base.cc:210-228 | in one round no handle is called twice, whatever the callbacks do |
| IdleLists.DueNodeIsCalledExactly | handy/event_base.cc:210-228 | for arbitrary callbacks: a due node is called if and only if the callbacks of the lists before its own have left it in its list, so one that its own list's callbacks unregister is still called |
| IdleLists.QuietRoundChangesNothing | handy/event_base.cc:214-224 | the walk works on copies: without callbacks' doing the lists do not change |
| IdleLists.EventsImp.RegisterIdle | handy/event_base.cc:236-239 | a new node at the end of its list, and a handle that names it |
| IdleLists.EventsImp.UnregisterIdle | handy/event_base.cc:242-245 | the handle's node goes and nothing else |
| IdleLists.EventsImp.UpdateIdle | handy/event_base.cc:247-251 | the handle's node gets the time and moves to the end |
| IdleLists.EventsImp.CallIdles | handy/event_base.cc:210-228 | the round's calls in order, with each list as it is when the round comes to it, under callbacks that change the lists |
| IdleRuns.ActsMean | handy/event_base.cc:230-251 | registering appends a new node; updating moves the handle's node to the end with its connection and the new time; unregistering takes it away; the other nodes keep their order and the other lists do not change |
| IdleRuns.CalledWhenIdleExactly | handy/event_base.cc:210-251 | a connection registered or updated at time u is called in a later round if and only if u plus the idle time is not after it, whatever else has happened in between, and with the connection that was registered |
| IdleRuns.UnregisteredIsNotCalled | handy/event_base.cc:242-245 | no later round calls an unregistered handle, whatever happens |
| IdleRuns.EveryCallRunsItsCallback | handy/event_base.cc:224 | what a round does to the lists is what its callbacks do, one for each call, in the order of the calls |
| Buffers.Buffer.MoveHead | handy/net.h:108-112 | the overlapping in-place move keeps the contents |
| Buffers.Buffer.Expand | handy/net.cc:117-126 | new storage, same contents, at least double the capacity |
| Buffers.Buffer.MakeRoom | handy/net.cc:107-115 | contents unchanged and room for the bytes asked for |
| Buffers.Buffer.Append | handy/net.h:75-78 | concatenation |
| Buffers.Buffer.Consume | handy/net.h:86-91 | drops a prefix and releases storage when nothing is left |
| Buffers.Buffer.Absorb | handy/net.cc:137-151 | concatenates, empties the source, keeps each side's suggested size, shares no storage, and does nothing on itself |
| Buffers.Buffer.Copy | handy/net.cc:128-134 | an equal buffer over storage of its own |
| Buffers.CopyingIsAmortised | handy/net.cc:107-126 | over any appends and consumes at most three bytes are moved for each byte appended |
| Buffers.CopyingWithReadsIsAmortised | handy/net.h:64-67 | with the read path mixed in, six for each byte and six suggested sizes for each time the buffer starts empty |
| Buffers.NewBufferCopiesLittle | handy/net.h:50-57 | both bounds for every run of a new buffer |
| Buffers.CapacityIsBounded | handy/net.cc:107-115 | over any appends and consumes the capacity stays within about four times the most the buffer has held at once |
| Buffers.ReadingOutgrowsTheContents | handy/net.h:64-67 | a run of reads that never holds more than the suggested size and one byte, with a capacity beyond any number |
| ByteOrder.HtobeIsItsOwnInverse | handy/net.h:12-19 | one function serves as hton and ntoh |
| ByteOrder.HtobeIsNetworkOrder | handy/port_posix.h:14-20 | in memory the converted value has its most significant byte first |
| ByteOrder.NetworkOrderIsRead | handy/port_posix.h:14-20 | four bytes in memory are read, most significant first, as the number they spell |
| ByteOrder.LoadStore | handy/net.h:81-85 | the bytes appendValue writes for a 32-bit value are read back as that value |
| Codecs.LineCodec.TryDecode | handy/codec.cc:7-24 | the scan finds the first line end, strips one carriage return, and takes a lone EOT as a message |
| Codecs.BracketCodec.TryDecode | handy/codec.cc:29-50 | the scan finds the first closing bracket of an opened message |
| Codecs.LengthCodec.TryDecode | handy/codec.cc:55-68 | the header test, the signed length, and the frame |
| Codecs.EncodeTo | handy/codec.cc:25-71 | the three encoders append exactly one encoded message and keep what was there |
| Codecs.EncodedBytes | handy/codec.cc:25-71 | what each encoder writes byte for byte, with the length spelled most significant byte first |
| Codecs.LineFramesExactly | handy/codec.cc:7-24 | a line is the bytes up to the first line feed without one carriage return, or a lone EOT, and nothing else is a frame |
| Codecs.BracketFramesExactly | handy/codec.cc:29-50 | a bracketed message lies between an opening bracket at the front and the first closing one, in at least three bytes, or is a lone EOT |
| Codecs.LengthFramesExactly | handy/codec.cc:55-68 | a frame is the four letters, a spelled length of at most 1 MiB and that many bytes; exactly which other inputs are malformed or undefined |
| Codecs.DecodeExtends | handy/codec.cc:7-68 | bytes that follow never change an outcome, except after a lone EOT |
| Codecs.DecodeShortens | handy/codec.cc:7-68 | nor do bytes beyond the frame and one more take part in it |
| Framing.PumpContinues | handy/conn.cc:389-410 | stopping for more bytes and going on gives what one read of everything would have given |
| Framing.SplitsAgreeExactly | handy/conn.cc:384-411 | for any stream: messages, leftover and status are the same for every way of cutting it, if and only if no message boundary has an EOT byte with more behind it |
| Framing.MessagesSurviveExactly | handy/codec.cc:7-71 | a message list comes back whole for every way of cutting its encoding, if and only if the codec carries each message (no line feed or leading EOT; no closing bracket and a non-empty last one; at most 1 MiB) |
| Framing.PartwayThrough | handy/conn.cc:391-409 | at every point of a transfer the delivered list is a prefix and the buffer holds the bytes after it |
| Framing.CarriedOverExactly | handy/conn.cc:109-141 | cleanup does not empty the input buffer: the next connection's messages come through as sent, for every way of cutting them, if and only if no partial message was left |
| Framing.MalformedCarriesOver | handy/conn.cc:109-141 | malformed bytes left in the buffer make everything received later malformed |
| TcpInput.ReadLoop | handy/conn.cc:156-195 | whatever the sizes of the reads, the received bytes end up behind the buffer's contents, and the end of the stream is noticed |
| TcpInput.ReadsUntilStopped | handy/conn.cc:156-195 | a read event takes every chunk up to the first answer that is neither bytes nor an interruption, and takes that for the end exactly if it is an empty read or an error |
| Sending.DoConserves | handy/conn.cc:334-416 | each sending call keeps wire plus queue equal to everything submitted, in order |
| Sending.ISendStopsExactly | handy/conn.cc:303-332 | the write loop counts exactly what the kernel has taken, goes on over short writes and interruptions, and stops early only for a full socket, a reset or another error, each reported as what it is |
| Sending.SendWritesExactly | handy/conn.cc:334-416 | a sending call puts on the wire at once exactly what the kernel takes of what it may write, and does not stop before everything is written or the kernel stops it |
| Sending.HandleWriteConserves | handy/conn.cc:277-297 | so does a write event with any sends in its callback, and afterwards write interest is on exactly when bytes are queued |
| Sending.OutputIsConserved | handy/conn.cc:273-382 | over a whole connected period with short writes, interruptions and full sockets nothing is lost, reordered or stranded, and a reset leaves a prefix on the wire |
| Sending.ConnectedFlowsExactly | handy/conn.cc:239 | the handshake's switching off of write interest is harmless if and only if nothing was queued |
| Sending.CallStrandsExactly | handy/conn.cc:318-329 | a call strands bytes if and only if it is send of a byte range, with nothing queued and no write interest, that stops on another error |
| Sending.StrandedBytesAreOvertaken | handy/conn.cc:334-357 | a concrete run in which stranded bytes are overtaken on the wire |
| Sending.FlushLeavesIdleInterestExactly | handy/conn.cc:340-356 | flushing leaves interest on with nothing queued if and only if it was on and the kernel took everything |
| Sending.HandleWriteFaultsExactly | handy/conn.cc:289-297 | a write event uses a channel that is gone if and only if it wrote the whole queue and its callback met a reset in a send of a range or a buffer and printed nothing behind the queue after that |
| TcpOutput.TcpConn.ISend | handy/conn.cc:303-332 | the write loop over short writes |
| TcpOutput.TcpConn.SendBytes | handy/conn.cc:362-382 | send of a byte range |
| TcpOutput.TcpConn.SendBuffer | handy/conn.cc:334-360 | send of a buffer, which is empty afterwards unless the connection is gone |
| TcpOutput.TcpConn.SendOutput | handy/conn.cc:334-360 | send of the output buffer itself, where absorbing changes nothing |
| TcpOutput.TcpConn.SendMsg | handy/conn.cc:413-416 | encode behind the queue and flush |
| TcpOutput.TcpConn.HandleWrite | handy/conn.cc:277-297 | the write event |
| SafeQueue.InvKept | handy/threads.h:69-122 | every atomic step keeps mutual exclusion, the accounting of tasks, and the balance of sleepers and comers |
| SafeQueue.PushWakes | handy/threads.h:76-85 | a push that finds sleepers turns one of them into a thread on its way to the queue |
| SafeQueue.NoLostWakeup | handy/threads.h:76-110 | in every state of every interleaving, while somebody sleeps un-notified there are at least as many notified threads still to run as queued tasks, counting a holder of the lock that is on its way to the queue |
| SafeQueue.ExitWakesEveryone | handy/threads.h:69-74 | once exit has returned nobody sleeps un-notified, although the flag is set before the lock |
| SafeQueue.ExitRefuses | handy/threads.h:79-81 | from the moment the flag is set no push is accepted |
| SafeQueue.TasksAreConserved | handy/threads.cc:23-35 | accepted tasks are executed, in flight in exactly one thread, or queued in push order, and a bounded queue stays in bounds |
| SafeQueue.PushAppendsExactly | handy/threads.h:76-85 | in every reachable state a push at its end appends exactly its own task, and wakes a sleeper if there is one, if the exit flag is unset and the queue is unbounded or below its bound; in exactly the other cases it changes nothing |
| SafeQueue.PushCarriesItsTask | handy/threads.h:76-82 | the task it appends is the one it was called with, whatever other threads do in between |
| SafeQueue.PopStopsWaitingExactly | handy/threads.h:86-98 | a pop stops waiting if and only if there is a task, the exit flag is set, it was called not to wait, or its deadline has passed |
| SafeQueue.PopEndsExactly | handy/threads.h:100-110 | in every reachable state a pop gets the oldest accepted task that nobody has taken, and ends without one only on an empty queue, after exit, without waiting, or past its deadline |
| SafeQueue.PopCarriesItsWait | handy/threads.h:86-110 | a pop keeps to the way it was called until it ends |
| SafeQueue.NoWaitNeverSleeps | handy/threads.h:86-98 | a pop that was called not to wait is never asleep |
| SafeQueue.NeverStuck | handy/threads.h:86-98 | with a task queued and somebody asleep, the lock's holder or a notified thread can move |
| Wakeup.NoTaskIsLost | handy/event_base.cc:74-90 | in every interleaving the executed, running and queued tasks are the accepted ones in order, and a queued task is announced by a byte, a producer about to write, or an unfinished drain |
| Wakeup.LoopExecutesEverything | handy/event_base.cc:163-177 | the loop alone, reading up to 1024 bytes at a time, executes every accepted task before it waits on an empty pipe |
| Wakeup.SafeCallAppendsExactly | handy/event_base.cc:74-78 | in every reachable state safeCall appends exactly its own task if the queue is unbounded or below its bound, and nothing otherwise, and always goes on to write its byte |
| Wakeup.ReadsExactly | handy/event_base.cc:163-177 | the loop comes back to its pipe once for every 1024 bytes in it, however many tasks there are |
| Poller.DispatchIsSafe | handy/poller.cc:88-116 | whatever callbacks close or create, no callback starts on a removed channel, except the read half of an entry right after its write half has closed it |
| Poller.EachStartsExactly | handy/poller.cc:95-115 | a reported entry's callbacks are started, each once, the write one first and each exactly if its flag is set, if and only if no callback of the entries dispatched before it closes its channel or ends the loop |
| Poller.CallbacksTakeEffect | handy/poller.cc:95-115 | whatever the started callbacks close, create or end is closed, created or ended afterwards, and nothing else is |
| Poller.DoKeepsInv | handy/poller.cc:73-86 | removal during the walk keeps every entry to come null or live, and the live set equal to the open descriptors |
| Poller.PollerEpoll.RemoveChannel | handy/poller.cc:73-86 | the downward scan nulls the channel's entry |
| Poller.PollerEpoll.LoopOnce | handy/poller.cc:88-116 | the dispatch loop, also after an interrupted wait and when a callback ends it |
| Poller.PollerEpoll.CloseAll | handy/poller.cc:43-50 | the destructor's loop ends with every channel closed |
| Lifecycle.QuietLoop | handy/conn.cc:389-410 | while its callbacks only send, meet no reset and do not switch write interest on for a closed descriptor, the message loop delivers every complete message in order, consumes exactly those, and closes on malformed input |
| Lifecycle.StepKeepsInv | handy/conn.cc:14-416 | every event whose callbacks are harmless keeps the program from faults and fatal checks, notes matching the state, an open channel exactly while live, the reconnect bookkeeping, and delivered messages matching the stream |
| Lifecycle.EveryRunIsOrderly | handy/conn.cc:109-197 | in every run of such events the callbacks of an attach are a prefix of Connected, Closed or the single Failed, nothing that is gone is used, no fatal check fails, an open channel means handshaking or connected, and waiting for a reconnect means one pending timer, no channel, closed or failed |
| Lifecycle.MessagesArrive | handy/conn.cc:143-197 | in every such run, however bytes are grouped into reads and events and whatever an earlier connection left in the buffer, the messages of the stream are delivered once each and in order |
| Lifecycle.StaleReadIsHarmless | handy/conn.cc:143-156 | the read half that the dispatcher may still run after the write half has closed the channel is a possible event and changes nothing |
| Transitions.LiveMovesExactly | handy/conn.cc:99-301 | exactly which harmless events end a live connection, and that such an end closes or fails it, reports it, registers a reconnect or drops its callbacks; the others change nothing but data, the handshake's outcome and the connect timer |
| Transitions.AttachStartsOver | handy/conn.cc:14-98 | what an attach starts with: an open descriptor, write interest, nothing reported, the bytes an earlier attach has left, and the connect timer if asked for |
| Transitions.EveryRunReports | handy/conn.cc:109-252 | in every run of such events each change of state is reported, once and in order |
| Transitions.EveryEndReconnectsExactly | handy/conn.cc:128-138 | a connection that ends registers one reconnect if and only if its owner last asked for it and the base has not exited; otherwise it drops its callbacks and erases its idle nodes |
| Transitions.WriteSettlesInterest | handy/conn.cc:294-297 | after a write event that the connection survives, write interest is on only for what is still queued |
| Reentry.StepIsOrderlyExactly | handy/conn.cc:109-416 | an event faults, fails a fatal check, repeats a state callback or repeats a message, unless its callbacks are harmless in the sense of `Tame`, a condition on the state before it, on what the callbacks send or close, and on what the kernel answers: this is exact for every event |
| Reentry.DeliversOnceExactly | handy/conn.cc:389-410 | the message loop delivers each message once, in order and without a fault, if and only if every message callback only sends and meets no reset |
| Mishaps.AbortsExactly | handy/conn.cc:334-360 | a send stops the program if and only if the descriptor is closed, write interest is off, and it is a send of a buffer or of printed output that finds something to write; a byte range is only queued |
| Mishaps.PipelinedRequestAborts | examples/http-hello.cc:18-25 | a run of the model with a server of this shape: the posted close finds the second request in the buffer, and answering it stops the program |
| Mishaps.ClosingCallbackFaultsExactly | handy/conn.cc:399-401 | a message callback that closes at once, after any sends, has its message delivered again, and no further harm is done if and only if the callbacks that then run on the closed descriptor do not switch write interest on and the leftover reaches beyond a second copy of the frame and is well formed there |
| Mishaps.ClosingInPlaceFaults | handy/conn.cc:389-410 | a concrete run, from its dialling on, of a reconnecting client that delivers a message twice and then closes a null channel |
| Reentry.CleanupGoesWrongExactly | handy/conn.cc:109-141 | a cleanup between events goes wrong if and only if malformed input is left and the connection reconnects or has idle callbacks |
| Mishaps.MalformedAtTheEndReportsTwice | handy/conn.cc:188-192 | a concrete run from dialling on that reports Closed twice and then uses a null channel |
| Nests.NestEndsExactly | handy/conn.cc:109-112 | the loop's nest of callbacks and cleanups ends if and only if as many message callbacks have only sent as there are messages, or one has closed the channel |
| Nests.EchoNeverEnds | handy/conn.cc:362-370 | an echo that has met one reset is handed the same message again each time |
| Outflow.EveryRunConserves | handy/conn.cc:273-416 | in every possible run, harmless or not, from an empty queue at the handshake and without errors the write loop does not tell apart: wire plus queue is what callbacks and users handed over, in order, queued bytes wait for a write event, and of a connection that is gone a prefix is on the wire |
| Connection.TcpConn.MessageLoop | handy/conn.cc:389-410 | the loop in place over the buffer, consuming each frame after its callback, from whatever that callback has left |
| Connection.TcpConn.Deliver | handy/conn.cc:397-402 | one turn of it |
| Connection.TcpConn.ChannelClose | handy/event_base.cc:375-386 | closing takes the descriptor first and runs the read callback inside; nested calls are bounded by what callbacks do and the one open descriptor |
| Connection.TcpConn.RunSend | handy/conn.cc:334-416 | a send by a callback on whatever is left of the connection: bytes out, a cleanup inside it, or the fatal check |
| Connection.TcpConn.DoCleanup | handy/conn.cc:109-141 | the read callback on leftover input, the final state, and the end of the connection or a reconnect |
| Connection.TcpConn.DoReconnect | handy/event_base.cc:422-444 | joins the waiting set, starts one timer, and takes the channel off, unless a nested cleanup has already |
| Connection.TcpConn.HandleRead | handy/conn.cc:143-197 | the read event from handshake to read callback, over reads of any sizes, and nothing at all on a closed or failed connection |
| Connection.TcpConn.HandleWrite | handy/conn.cc:273-301 | the write event in each state: handshake, flush with the writable callback behind it, or nothing |
| Slices.EatWordFrom | handy/slice.h:60-71 | the word loop |
| Slices.EatLineFrom | handy/slice.h:73-79 | the line loop |
| Slices.TrimSpace | handy/slice.h:81-87 | the two trimming loops |
| Slices.EatWordOf | handy/slice.h:60-71 | a word put in front of a blank is cut off again |
| HttpLines.EatWordExactly | handy/slice.h:60-71 | the word behind any blanks and up to the next one |
| HttpLines.TrimExactly | handy/slice.h:81-87 | what lies between the blanks at both ends |
| Numbers.AtoiOfPrint | handy/http.cc:142-159 | atoi reads back what %d printed, for negative numbers too |
| Numbers.PrintIsDecimal | handy/http.cc:142 | the digits are the decimal ones, most significant first, without leading zeros |
| Numbers.AtoiExactly | handy/http.cc:64 | blanks, a sign and a number with anything behind it are read as that number, and anything else as zero |
| Http.ScanSkipsNone | handy/http.cc:33-39 | no blank line starts before `scanned` while the header block is incomplete |
| Http.AttemptResumes | handy/http.cc:25-78 | an attempt on a prefix followed by one on the whole ends as one attempt on the whole, for any bytes; failures do not depend on what follows |
| Http.ResumptionIsOneShot | handy/http.cc:25-78 | the same for any growing sequence of inputs |
| Http.NeverContinue100 | handy/http.cc:51-66 | a parsed message never asks for 100 Continue, because names are kept in lower case |
| Http.EmptyBlockNeverCompletes | handy/http.cc:41-43 | a message that begins with a blank line stays incomplete however it goes on |
| HttpLines.LineIsReadExactly | handy/http.cc:45-60 | a header line is a field if and only if it is a name with a colon, blanks, and a value, and blank if and only if it is all blanks |
| HttpLines.LinesAreReadExactly | handy/http.cc:45-61 | header lines are accepted if and only if each is a field, the last possibly blank; the map holds the fields before the first other line |
| HttpLines.MalformedLinesFailExactly | handy/http.cc:25-61 | one attempt on any message text fails if and only if a header line is malformed |
| HttpLines.RequestIsRefusedExactly | handy/http.cc:95-104 | a request is refused if and only if a header line is malformed or its second word does not begin with a slash |
| HttpMessages.DecodeOfEncode | handy/http.cc:80-152 | one attempt on a printed message with anything behind it gives its headers, its body, and exactly its own bytes as scanned |
| HttpMessages.ResponseOnTheWire | handy/http.cc:139-152 | a response that is printed whole, byte for byte |
| HttpMessages.RequestOnTheWire | handy/http.cc:80-93 | a request that is printed whole, byte for byte, with its two line feeds |
| HttpMessages.StartLineIsWholeExactly | handy/http.cc:140-143 | the printed start line is the intended one if and only if it fits into the buffer with its terminator and holds no NUL byte |
| HttpMessages.ResponseRoundTrip | handy/http.cc:139-163 | for a start line that is printed whole: version, status, reason, headers and body of a response come back, and the tail is untouched |
| HttpMessages.RequestRoundTrip | handy/http.cc:80-105 | likewise method, query URI, version, headers and body of a request come back in spite of its line-feed pair, as an error if the URI does not begin with a slash |
| HttpMessages.FieldIsReceived | handy/http.cc:144-149 | each field distinct in lower case keeps its value, and the two added fields win |
| HttpMessages.ResponseResumesExactly | handy/http.cc:154-163 | going on with a longer input gives the response that one attempt on it gives, whatever follows, if and only if atoi stops inside the first input |
| HttpMessages.SecondWordSuffices | handy/http.cc:158-159 | a second word in the start line is enough for that |
| HttpMessages.BareVersionReadsOn | handy/http.cc:159 | a concrete response whose status is read from behind it, and depends on what is there |
| HttpMessages.ResponseIsOneShot | handy/http.cc:154-163 | over any growing sequence of inputs whose status ends inside them the parsed response is that of one attempt on the last, status line included |
| HttpMessages.RequestResumes | handy/http.cc:95-137 | going on with a longer input gives the request that one attempt on it gives |
| HttpMessages.ResponseArrivesInPieces | handy/http.cc:68-77 | a response that arrives in any pieces is complete when its last byte is there and not before, with the version, status, reason, headers and body that were sent |
| HttpParser.HttpMsg.FindBlankLine | handy/http.cc:33-39 | the resumable scan |
| HttpParser.HttpMsg.ReadHeaders | handy/http.cc:45-61 | the header loop with its error exits |
| HttpParser.HttpMsg.TryDecode | handy/http.cc:25-78 | one attempt in place |
| HttpParser.HttpResponse.TryDecode | handy/http.cc:154-163 | the status line once, when the header block completes, with the status read from the input at its place and not from the word alone |
| HttpParser.HttpResponse.Encode | handy/http.cc:139-152 | appends the response as the print buffer cuts it and returns its length |
| HttpParser.HttpResponse.ClearData | handy/http.cc:216-224 | drops exactly the scanned bytes and starts afresh |
| HttpParser.ReadResponse | handy/http.cc:202-212 | what was sent comes out, and exactly what was pipelined behind it stays in the buffer |
| ProtoMsg.Encode | protobuf/proto_msg.cc:57-65 | appends one frame with the right length, wherever the storage has moved, and keeps the earlier bytes |
| ProtoMsg.DecodeFrom | protobuf/proto_msg.cc:22-55 | consumes exactly the frame of a message it returns and nothing otherwise |
| ProtoMsg.FrameRoundTripExactly | protobuf/proto_msg.cc:22-65 | a frame comes back as its message and its own length, if and only if it is shorter than 4 GiB |
| ProtoMsg.FrameOnTheWire | protobuf/proto_msg.cc:57-65 | a frame byte for byte, with both lengths least significant byte first |
| ProtoMsg.FrameIsReadExactly | protobuf/proto_msg.cc:22-55 | what decode makes of each prefix of a frame and what follows it: exactly which of its errors, or the message |
| ProtoMsg.StaysInsideExactly | protobuf/proto_msg.cc:28-46 | whatever types are registered decode stays inside the buffer, if and only if its tests on the lengths reject it or the frame is long enough for its own header and name |
| ProtoMsg.NameBehindTheEnd | protobuf/proto_msg.cc:30-34 | an eight-byte buffer that passes the tests with its name behind the end |
| ProtoMsg.CompleteExactly | protobuf/proto_msg.h:29-31 | a frame counts as complete exactly when its last byte is there |
| ProtoMsg.FramesComeBack | protobuf/proto_msg.cc:22-65 | a sequence of frames comes back as the sequence of messages |

## Left out

- Sockets, epoll, pipes and clocks: their results are parameters; errno is success, interrupted, would block, reset or other.
- 64-bit overflow of timer times and sequence numbers, and buffer sizes beyond 2^31, where the program casts to int.
- SafeQueue and Wakeup are state machines over values, as threads have no Dafny form; memory ordering is not modelled.
- The worker's own test of the exit flag before each pop: the model lets a worker pop at any time, which covers it.
- The shutdown tail of EventsImp::loop, which cleans up waiting connections a second time.
- Conservation of output carried across a reconnect or queued before the handshake: OutputIsConserved and EveryRunConserves start with an empty queue or one that flows; ConnectedFlowsExactly says what happens otherwise.
- Lifecycle assumes that state callbacks other than Connected neither send nor close, that the user does not call connect again, and that a read callback of the user's own takes its bytes from the input before it sends or closes.
- Lifecycle assumes that a socket that has reported a reset reports one to every later write, that every write on a closed descriptor fails, and that the descriptor's number is not given out again before the callbacks inside its closing return.
- The connection appears in two classes: Connection.TcpConn keeps its output half as a value, whose in-place form is TcpOutput.TcpConn.
- Fatal checks stop the program, as they do where assertions are compiled in.
- Callback objects and their lifetimes: a task is a number, and a callback is the list of calls it makes.
- Idle lists that callbacks create during a round are visited in it only if `keys` names them; by RoundCallsOnlyKnown nothing is called in them.
- EventsImp.EventsImp.HandleTimeouts: requires that callbacks schedule only later than `now`, because otherwise the loop need not end.
- IdleLists.EventsImp.CallIdles: requires positive idle times, because otherwise the walk over a list does not end (WalkEndsExactly).
- Poller.PollerEpoll.CloseAll: callbacks do not create channels while the destructor closes the others.
- Starting the one-second timer on the first registration of an idle callback.
- The update of a connection's idle handles when a read event has taken its bytes: Lifecycle records only whether it has any, and IdleRuns takes updates as calls.
- The parser's lower-casing of names inside the caller's buffer: only the header map shows it.
- Bodies kept as slices of the input instead of copies, and query-string arguments of a request.
- TryDecodeRequest: a request with a bad URI is an error in the attempt that completes its headers only; the server closes the connection then.
- A content-length that is negative or above 2^31 - 1, and status numbers beyond an int.
- HttpParser.HttpResponse.Encode: requires a status that is a number; one read from behind the input has no value in the model.
- CodecBase::clone, which gives a line codec for a bracket codec.
- The macOS poller, UDP, configuration files, logging, daemons, statistics, and the round-robin choice of an event base.
