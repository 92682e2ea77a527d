# Verification of the FAS core

FAS is a reactor framework: an event loop per thread with timers, connections with
buffered input and output, an HTTP file server and a memcached proxy that spreads keys over
a consistent-hash ring. This project models its stateful parts in Dafny and proves what they
promise, on every input and every run. Where a promise is not kept by the code, the exact
condition under which it is kept is proved instead.

`dafny verify dfyconfig.toml` checks everything. The source is the repository at the commit
whose lines are cited below.

## How it is built

Objects that the source changes in place are classes with the same fields. Where an object has
many fields and many operations (a connection, the timers, a memcached task, the ring), what
each operation does is also given as a function on values (`Conn`, `State`, `Task`); the class
methods are proved to do exactly that, and the laws over whole runs are proved about the
functions.

| file | models | main results |
|---|---|---|
| `Rfc1321.dfy`, `Md5.dfy` | mdm/Md5.cpp | the streaming implementation yields the digest of sections 3.1 to 3.5 of RFC 1321, however the message is cut into chunks |
| `Buffer.dfy` | base/Buffer.cpp | a byte queue under any sequence of uses, with compaction, growth and scatter reads |
| `EventLoopWakeUp.dfy` | base/EventLoop.cpp, functors and wake-up | no lost wake-up in any interleaving; functors run once, in lock order, in the next round |
| `EventLoopRegistration.dfy` | base/EventLoop.cpp, handles | after each flush poller and table agree; what survives a flush, exactly |
| `TimerHeap.dfy`, `TimerOperations.dfy`, `TimersScheduler.dfy` | base/TimerHeap.cpp, base/TimersScheduler.cpp | what happens to a batch of expired timers whose callbacks add and delete timers |
| `TimerArming.dfy` | base/TimersScheduler.cpp | when the timerfd is set for the least expiration, exactly |
| `TcpConnection.dfy` | base/TcpConnection.cpp | no byte lost or reordered, graceful close, one close callback, over all runs |
| `UtilString.dfy`, `HttpRequest.dfy` | utils/utilstring.cpp, http/HttpRequest.cpp | framing of the header, round trip of printing and parsing, when parsing throws, exactly |
| `HttpReqHandle.dfy` | http/HttpReqHandle.cpp | a requested file is delivered completely before the connection closes, in boundedly many writes; when it stalls, exactly |
| `ConsistencyHash.dfy` | mdm/ConsistencyHash.cpp | minimal disruption, conservation of the lookup counts |
| `McacheTask.dfy` | mdm/mcacheTask.cpp | where every call rests; storage commands do not depend on how they are divided into chunks |

`Decimals.dfy` says what std::to_string prints and std::atoi reads, by the positional value of the
digits. `Arithmetic.dfy`, `Collections.dfy` and `Text.dfy` hold what several modules use.

## Promises that the code does not keep

- Another thread's registration does not wake a polling loop
  (`EventLoopWakeUp.RegistrationDoesNotWake`) unless the thread goes on to call wakeUp
  (`WakingRegistrationsAreNoticed`, `WakingRegistrationIsApplied`), and a modification recorded
  before the flush undoes a deletion (`EventLoopRegistration.ModificationUndoesDeletion`; exactly
  when a deletion survives is `RegisteredAfterFlush`).
- Functors that the owner thread queues before it calls loop() do not wake the first poll
  (`EventLoopWakeUp.EarlyFunctorsWait`); apart from them no wake-up is lost (`NoLostWakeUp`).
- After an operation the timerfd is not always set for the least expiration of the set. A refused
  addition arms for a timer that has expired (`TimerArming.StaleArming`), and a timer at the
  address of a deleted one that is still cached is not armed at all (`ReusedAddress`). Whether the
  timerfd is set for the least afterwards is told exactly by `OnTimeExactly`: if the operation
  changes the set, when the new least timer is not the one cached before or the timerfd was armed
  for that very expiration, and never when it empties the set; if it does not change the set, when
  the cached timer has the least expiration, where an old flag makes the scheduler arm again, and
  otherwise when it was so before.
- After a batch the timerfd may be set for an expiration that is over: after a batch of one-shots
  (`TimerArming.OneShotsMiss`) or a lone repeating timer (`LoneTimerMisses`). It is set for the
  least exactly when the tail of handdleRead arms it (which `ChangeIff` decides) or it was armed
  before the tail for the least of the timers that are in the set and those about to go back
  (`TailIsExact`). It is always so when the callbacks left it set for the least and cached timer
  (`TailKeepsTuned`).
- Deleting the last timer leaves the cache stale; the scheduler then follows a deleted timer exactly
  when `TimersSchedulers.TimersScheduler.Dangles` holds, for example when the only timer is deleted
  right after it was added (`TimerArming.NewTimerDangles`).
- Sending an empty message closes an idle connection (`TcpConnections.EmptyMessageCloses`). The loop
  watches an empty buffer at some moment of a run exactly when a message without a byte is sent on
  a connection that has no output (`WatchedMeansOutput`).
- A file whose read ends in EAGAIN or EINTR after a write that took all of the buffer is never
  finished: nothing watches for writing any more, and the connection stays open
  (`HttpReqHandles.AgainStalls`, `StallLasts`). A delivery stalls exactly when this happens, and it
  ends before the last byte exactly when a read fails with another error (`FileDelivery`).
- The answer for an empty file announces that the connection will close, but it stays open
  (`HttpReqHandles.EmptyFileLingers`).
- Requests that come together in one message are not all parsed: the parser stops after the first
  and is called again only with the next message (`HttpRequests.PipelinedRequests`). The division
  into messages does not matter exactly when one call leaves nothing more to parse
  (`ChunksMatterExactly`).
- The parsers of the HTTP header throw on some lines (`HttpRequests.RequestLineThrows`,
  `HttpRequests.HeaderLineThrows`), and a header line without a colon becomes a header whose key
  and value are the line.
- A deleted node of the ring can never be added again (`ConsistencyHashes.DeletedForGood`).
  Deletion can take virtual keys from other nodes, in particular when a name is deleted twice
  (`RepeatedDeletionTakes`); the keys of the other nodes stay where they are exactly when each
  erased virtual key of another node still maps to that node (`DeletionSparesOthers`). Exactly when
  adding and deleting restores the ring is `AddThenDelete`.
- A memcached payload that contains a NUL never passes (`McacheTasks.NulIsStuck`), a task that
  has gone bad is forgotten by the next call (`McacheTasks.BadIsForgotten`), and a retrieval that
  fails has already passed on what the nodes before the failed one answered
  (`McacheTasks.RetrievalStopsAtFirstFailure`).

## Model

| member | source | states |
|---|---|---|
| Rfc1321.ZeroCountIsLeast | mdm/Md5.cpp:217-218 | the count of zero octets in the padding is the least that leaves room for the length (section 3.1 of RFC 1321) |
| Md5.SRotates | mdm/Md5.cpp:62 | S is the rotation of section 3.4, for each of the amounts used |
| Md5.F1IsF | mdm/Md5.cpp:74 | the rewritten F of the first round is the F of section 3.4 |
| Md5.F2IsG | mdm/Md5.cpp:95 | the rewritten F of the second round is the G of section 3.4 |
| Md5.PIsStep | mdm/Md5.cpp:64-67 | one use of the macro P is one step of section 3.4 |
| Md5.QuadIsSteps | mdm/Md5.cpp:64-91 | four uses of P with the variables rotating are four consecutive steps |
| Md5.Round1 | mdm/Md5.cpp:74-93 | the unrolled first round is steps 1 to 16 |
| Md5.Round2 | mdm/Md5.cpp:95-114 | the unrolled second round is steps 17 to 32 |
| Md5.Round3 | mdm/Md5.cpp:116-135 | the unrolled third round is steps 33 to 48 |
| Md5.Round4 | mdm/Md5.cpp:137-156 | the unrolled fourth round is steps 49 to 64 |
| Md5.Context.Process | mdm/Md5.cpp:41-162 | md5_process adds to the chaining state what the 64 steps make of the block |
| Md5.CounterGivesTail | mdm/Md5.cpp:170-171 | the counter tells how much of the buffer is in use |
| Md5.CarryIsWrap | mdm/Md5.cpp:176-177 | the comparison detects exactly the wrap of the low word |
| Md5.CounterAdds | mdm/Md5.cpp:173-177 | the two words count the bits of the longer message modulo 2^64, carry included |
| Md5.PaddingIsPrefix | mdm/Md5.cpp:217-220 | padn octets of the table are the padding of section 3.1, for every length |
| Md5.MessageLengthIsField | mdm/Md5.cpp:214-215 | the two stored words are the length field of section 3.2 |
| Md5.Context.Update | mdm/Md5.cpp:164-199 | a context that held a message holds the message followed by the input |
| Md5.Context.Finish | mdm/Md5.cpp:209-227 | the digest of everything the context was given |
| Md5.MD5.GenerateMD5 | mdm/Md5.cpp:229-235 | for every buffer of non-negative int length the digest of RFC 1321 |
| Md5.UpdateEach | mdm/Md5.cpp:164-199 | updating with the chunks of any list leaves what updating with their concatenation leaves |
| Md5.ContextIsDetermined | mdm/Md5.cpp:164-199 | counter, chaining state and the used part of the buffer depend only on the octets, not on the chunks |
| Buffers.ValueOfBigEndian | base/Buffer.cpp:138-150 | reading big-endian digits returns the number they were made of |
| Buffers.DecodeOfEncode | base/Buffer.cpp:138-188 | conversion to network order and back is the identity on signed integers of any width |
| Buffers.EncodeOrder | base/Buffer.cpp:138-150 | each octet of an integer that is sent: two's complement, the most significant octet first |
| Buffers.Buffer.Swap | base/Buffer.cpp:25-29 | the contents change places |
| Buffers.Buffer.FindChars | base/Buffer.cpp:59-62 | the first occurrence in the readable bytes, or none |
| Buffers.Buffer.FindCRLF | base/Buffer.cpp:47-50 | the first CRLF in the readable bytes, or none |
| Buffers.Buffer.Retrieve | base/Buffer.cpp:64-72 | bytes leave at the front; the indices are reset only when nothing is left |
| Buffers.Buffer.RetrieveUntil | base/Buffer.cpp:74-78 | what is before a position leaves |
| Buffers.Buffer.RetrieveAsString | base/Buffer.cpp:101-106 | the bytes that leave are returned |
| Buffers.Buffer.RetrieveAllAsString | base/Buffer.cpp:97-99 | all bytes are returned and none is left |
| Buffers.Buffer.MoveDown | base/Buffer.cpp:244-246 | the overlapping copy to the front moves the bytes unchanged |
| Buffers.Buffer.MakeSpace | base/Buffer.cpp:240-255 | room is made and the contents stay, in both branches; the assertion of the compacting branch holds |
| Buffers.Buffer.Append | base/Buffer.cpp:109-117 | the data follows the contents |
| Buffers.Buffer.ReadFd | base/Buffer.cpp:211-230 | however the kernel splits the data over the two areas it is appended once, in order |
| Buffers.Buffer.Prepend | base/Buffer.cpp:204-209 | the data precedes the contents |
| Buffers.Buffer.ReadInt | base/Buffer.cpp:152-168 | the integer at the front is returned and leaves |
| Buffers.PrependThenRead | base/Buffer.cpp:152-202 | a read undoes a prepend |
| Buffers.AppendThenRead | base/Buffer.cpp:138-168 | an appended integer is read back after what was there before |
| Buffers.UseOnce | base/Buffer.cpp:25-230 | one use of any kind does to the queue of bytes what was asked for; a read brings what there is room for |
| Buffers.UseMany | base/Buffer.cpp:25-255 | over any sequence of appends, prepends, integers, reads, takes and swaps the buffer is the queue of its bytes, and the room in front is accounted for |
| Buffers.BytesAreConserved | base/Buffer.cpp:64-230 | without prepends and swaps what was taken and what is left is what was there and what came, in order |
| EventLoopWakeUp.InvIsKept | base/EventLoop.cpp:185-300 | the invariant of the protocol is kept by every step of every thread |
| EventLoopWakeUp.NoLostWakeUp | base/EventLoop.cpp:225-300 | a loop that polls while there is a functor or a request to quit finds the counter positive or some thread about to raise it, except at the first poll with nothing but functors the owner queued before loop() |
| EventLoopWakeUp.EarlyFunctorsWait | base/EventLoop.cpp:230-234 | such functors wait: a reachable first poll with one of them and no wake-up due |
| EventLoopWakeUp.BlockedMeansDone | base/EventLoop.cpp:237-300 | when a poll blocks with no wake-up due every functor ever queued has run, with the same exception |
| EventLoopWakeUp.StepsTell | base/EventLoop.cpp:185-263 | quit_ is set exactly if a step was a call of quit, the queue has had exactly what the steps pushed, in order, and the eventfd holds the writes since its last read |
| EventLoopWakeUp.QuitEndsTheLoop | base/EventLoop.cpp:256-269 | after a call of quit by any thread the next test of the loop condition returns, whatever happens in between |
| EventLoopWakeUp.ReturnedWasAsked | base/EventLoop.cpp:269 | a loop that has returned was asked to quit by a step of the run |
| EventLoopWakeUp.ReportedIsRead | base/EventLoop.cpp:194-201 | a poll that finds the eventfd readable is followed by its read |
| EventLoopWakeUp.WakesAreTaken | base/EventLoop.cpp:194-201 | after a read the counter is positive only if some thread has written since |
| EventLoopWakeUp.FunctorsAreConserved | base/EventLoop.cpp:225-254 | executed, rest of the batch and queue are together what was queued, in lock order |
| EventLoopWakeUp.RoundIsFixedAtSwap | base/EventLoop.cpp:237-254 | a round runs what was queued at its swap; what is queued during it waits for the next |
| EventLoopWakeUp.QueuedRunsInNextRound | base/EventLoop.cpp:225-254 | what was queued has run by the end of the first round swapped afterwards |
| EventLoopWakeUp.NotRunningWhenDispatching | base/EventLoop.cpp:296 | the assertion before runFunctors holds |
| EventLoopWakeUp.RegistrationDoesNotWake | base/EventLoop.cpp:71-79 | a reachable state in which a registration of another thread waits while the loop polls and no wake-up is due |
| EventLoopWakeUp.WakingRegistrationsAreNoticed | base/EventLoop.cpp:71-79 | a registration followed by wakeUp, as in base/TcpServer.cpp:103, is never left waiting by a poll, whatever else is pending |
| EventLoopWakeUp.WakingRegistrationIsApplied | base/EventLoop.cpp:71-79 | along every run a loop that polls with no wake-up due has applied such a registration, and what is still pending came from threads that do not call wakeUp |
| EventLoopRegistration.EventLoop.ApplyUpdate | base/EventLoop.cpp:148-167 | one pending change is applied; neither assertion can fail |
| EventLoopRegistration.EventLoop.ApplyUpdates | base/EventLoop.cpp:148-167 | every pending change is applied and nothing else changes |
| EventLoopRegistration.EventLoop.UpdateHandlesUnlock | base/EventLoop.cpp:147-170 | afterwards table and poller have the same descriptors, every handle is in the loop, nothing is pending |
| EventLoopRegistration.EventLoop.Record | base/EventLoop.cpp:71-79 | another thread only adds a pending entry; the owner flushes |
| EventLoopRegistration.EventLoop.AddHandle | base/EventLoop.cpp:81-86 | a new handle becomes pending, or is registered at once by the owner |
| EventLoopRegistration.EventLoop.ModHandle | base/EventLoop.cpp:95-103 | refused when the descriptor is unknown; otherwise the registered handle's interest reaches the poller |
| EventLoopRegistration.EventLoop.DelHandle | base/EventLoop.cpp:116-124 | refused when the descriptor is unknown; otherwise it is gone after the flush |
| EventLoopRegistration.RegisteredAfterFlush | base/EventLoop.cpp:71-170 | after any calls of other threads a registered descriptor goes exactly when the last call about it deletes it, another comes exactly when it was added |
| EventLoopRegistration.ModificationUndoesDeletion | base/EventLoop.cpp:71-170 | a deletion does not survive a modification before the flush |
| TimerHeaps.InsertKeepsOrder | base/TimerHeap.cpp:73 | insertion into the ordered set keeps it ordered and adds exactly the key |
| TimerHeaps.RemoveKeepsOrder | base/TimerHeap.cpp:82 | erasure keeps it ordered and removes exactly the key |
| TimerHeaps.TimerHeap.GetExpiredTimers | base/TimerHeap.cpp:26-34 | exactly the timers whose time has come leave the set, in order; the assertion holds |
| TimerHeaps.TimerHeap.AddTimer | base/TimerHeap.cpp:57-74 | a timer that is there is refused; otherwise the cached timer is the least and the flag says whether it changed |
| TimerHeaps.TimerHeap.DelTimer | base/TimerHeap.cpp:76-97 | a timer of the set leaves and is deleted; when others remain cache and flag follow, otherwise they are left as they were |
| TimerHeaps.TimerHeap.RestartIntervalTimer | base/TimerHeap.cpp:36-55 | exactly the repeating members that nobody deleted go back, every other one is deleted once, the flag is the disjunction over the additions |
| TimerOperations.NewValueArms | base/TimersScheduler.cpp:45-65 | the value given to timerfd_settime is well formed, names max(100, time left) microseconds and never disarms |
| TimerArming.AdditionArms | base/TimersScheduler.cpp:81-98 | for every timer what an addition does to set, cache, flag and timerfd, refusals and stale flags included |
| TimerArming.DeletionArms | base/TimersScheduler.cpp:100-113 | the same for a deletion, of an absent timer and of the last one too |
| TimerArming.OnTimeExactly | base/TimersScheduler.cpp:81-113 | for every operation, armed or not, whether the timerfd is set for the least expiration afterwards, told from the state before it |
| TimerArming.TunedIsKept | base/TimersScheduler.cpp:81-113 | once the timerfd is set for the least timer and that one is cached, operations that leave timers keep it so |
| TimerArming.StaleArming | base/TimerHeap.cpp:60-62 | a refused addition that arms for an expiration that is over |
| TimerArming.ReusedAddress | base/TimerHeap.cpp:67-71 | a timer at a reused address that is never armed |
| TimerArming.NewTimerDangles | base/TimerHeap.cpp:87-96 | a timer added to an empty set dangles when it is deleted next, exactly unless its address was cached already |
| TimerOperations.PerformedLeavesBatch | base/TimersScheduler.cpp:81-113 | whatever a callback asks for, a member of the running batch is at most marked, and none is freed |
| TimersSchedulers.TimersScheduler.AddTimer | base/TimersScheduler.cpp:81-98 | a member of the running batch is refused; otherwise heap and timerfd change as the specification says |
| TimersSchedulers.TimersScheduler.DelTimer | base/TimersScheduler.cpp:100-113 | a member of the running batch is only marked; otherwise it leaves the set and is deleted |
| TimersSchedulers.TimersScheduler.DeleteFromHeap | base/TimersScheduler.cpp:109-112 | the scheduler would follow a deleted timer exactly when the condition Dangles holds |
| TimersSchedulers.TimersScheduler.RunBatch | base/TimersScheduler.cpp:121-126 | each member runs at most once, and only if no callback run before it deleted it |
| TimerOperations.RunsExactly | base/TimersScheduler.cpp:121-126 | a member runs exactly if no callback that ran before it deleted it |
| TimersSchedulers.TimersScheduler.HandleRead | base/TimersScheduler.cpp:115-133 | the batch is exactly the due timers in order; a repeating member that nobody deleted is in the set again with its new expiration, every other member is deleted exactly once; set and batch stay apart; when the timerfd is set for the least expiration afterwards, exactly |
| TimerOperations.GoneIs | base/TimerHeap.cpp:48-52 | the deleted members are those that do not go back, each once |
| TimerArming.ChangeIff | base/TimersScheduler.cpp:128-131 | the tail of handdleRead arms exactly when with some restarted members the least timer is not the one cached before |
| TimerArming.TailIsExact | base/TimersScheduler.cpp:127-132 | after a batch the timerfd is set for the least expiration exactly when the tail arms or it was armed for the least of those to come already |
| TimerArming.TailKeepsTuned | base/TimersScheduler.cpp:127-132 | whatever goes back, a timerfd that the callbacks left set for the least and cached timer is so afterwards |
| TimerArming.BatchLeavesTuned | base/TimersScheduler.cpp:120-132 | if it is so after some callback and no later operation empties the set, it is so after the whole batch |
| TimerArming.OneShotsMiss | base/TimersScheduler.cpp:128-131 | a batch of which nothing goes back and whose callbacks do nothing leaves the timerfd set for an expiration that is over |
| TimerArming.LoneTimerMisses | base/TimerHeap.cpp:67-71 | so does a lone repeating timer, whose new expiration is never given to timerfd_settime |
| TimerArming.CallbackArms | base/TimersScheduler.cpp:90-93 | a callback that makes a timer makes up for a tail that does not arm |
| TcpConnections.StepKeepsInv | base/TcpConnection.cpp:81-192 | every event keeps the invariant of the close machine |
| TcpConnections.RunKeepsInv | base/TcpConnection.cpp:81-192 | on every run no byte is lost or reordered, all-data-out means an empty buffer, the close callback ran at most once |
| TcpConnections.GracefulClose | base/TcpConnection.cpp:123-192 | unless the peer forces a close the handle is deleted only when every accepted byte was written |
| TcpConnections.ShutdownHappens | base/TcpConnection.cpp:147-156 | a shutdown that was asked for happens with the write that empties the buffer, unless the more-data callback is called |
| TcpConnections.ForcedByRun | base/TcpConnection.cpp:110-142 | a forced close comes only from an end of file, a hang-up or a write of no bytes |
| TcpConnections.ForcingCloses | base/TcpConnection.cpp:110-142 | each end of file, hang-up and write of no bytes deletes the handle and has the close callback called, once |
| TcpConnections.ForcedRunCloses | base/TcpConnection.cpp:110-192 | after any of them the handle is gone for the rest of the run |
| TcpConnections.WatchedMeansOutput | base/TcpConnection.cpp:81-163 | throughout a run the loop watches for writing only while there is output, exactly if no event of the run sends a message without a byte on a connection without output |
| TcpConnections.StepIsPurposeful | base/TcpConnection.cpp:81-163 | exactly which events make it watch an empty buffer |
| TcpConnections.EmptyMessageCloses | base/TcpConnection.cpp:138-142 | an empty message on an idle connection closes it at the next writable event |
| TcpConnections.TcpConnection.SendString | base/TcpConnection.cpp:81-96 | the message is appended and the poller watches for writing |
| TcpConnections.TcpConnection.Shutdown | base/TcpConnection.cpp:179-192 | closes now, or as soon as the output is out |
| TcpConnections.TcpConnection.HandleRead | base/TcpConnection.cpp:98-121 | bytes reach the read buffer and the message callback; an end of file closes |
| TcpConnections.TcpConnection.HandleWrite | base/TcpConnection.cpp:123-163 | the written bytes leave the buffer, the callback may add more, and an empty buffer ends the watching or closes |
| TcpConnections.TcpConnection.ClearInLoop | base/TcpConnection.cpp:194-198 | the assertion of clearInLoop, queued by the close callback, holds |
| HttpReqHandles.GetStartsDelivery | http/HttpReqHandle.cpp:86-109 | a GET of a file puts the header text out and starts the delivery |
| Decimals.DecimalIs | http/HttpReqHandle.cpp:100-101 | the printed length consists of digits without a leading zero, and their positional value is the length |
| HttpReqHandles.HeaderAnnounces | http/HttpReqHandle.cpp:96-106 | the header text, with the length of the file as its decimal digits |
| HttpReqHandles.GoesUpIs | http/HttpReqHandle.cpp:63-66 | a path is refused for "../" anywhere in it |
| HttpReqHandles.GetIsRefused | http/HttpReqHandle.cpp:63-93 | a refused request closes the connection without an answer |
| HttpReqHandles.ReadTurn | http/HttpReqHandle.cpp:172-185 | a write refills the buffer with the next piece; with the last piece the shutdown is asked for |
| HttpReqHandles.TurnKeepsDelivery | http/HttpReqHandle.cpp:143-187 | sent, buffered and unread bytes are together header and file, each successful write drops 2 * remaind + buffered, a turn stalls exactly when it drains the buffer while the read is to be tried again, and cuts the delivery short exactly when the read fails otherwise |
| HttpReqHandles.AgainStalls | http/HttpReqHandle.cpp:161-164 | every delivery whose file is not finished can stall so |
| HttpReqHandles.StallLasts | base/TcpConnection.cpp:153-160 | no writable event changes a stalled delivery |
| HttpReqHandles.FileDelivery | http/HttpReqHandle.cpp:86-187 | on every run, read errors included, the peer has a prefix of header and file, the connection closes once and with an empty buffer, after the last byte exactly unless a read failed, boundedly many writes end it, and until then it is watched exactly unless it stalled |
| HttpReqHandles.CourseNeedsError | http/HttpReqHandle.cpp:161-171 | a run stalls or is cut short only by a read that ends in the error that tells it |
| HttpReqHandles.CutTurnKeeps | http/HttpReqHandle.cpp:166-171 | after a failed read exactly what is buffered still goes out before the connection closes |
| HttpReqHandles.RequestIsServed | http/HttpReqHandle.cpp:25-111 | from the bytes of a GET request, in any messages and followed by anything but another complete header, to the bytes of the answer with the file that the file system has for its path, repeated slashes removed |
| HttpReqHandles.EmptyFileLingers | http/HttpReqHandle.cpp:154-159 | for an empty file no run of writes closes the connection unless a read fails |
| HttpReqHandles.HttpReqHandle.HandleGet | http/HttpReqHandle.cpp:62-111 | which requests are answered, which end the connection, and what is put out |
| HttpReqHandles.HttpReqHandle.SendMassData | http/HttpReqHandle.cpp:143-187 | one piece of the file goes to the connection and the context advances; its assertions hold |
| HttpReqHandles.HttpReqHandle.HandleWrite | http/HttpReqHandle.cpp:143-187 | handleWrite with sendMassData as the more-data callback |
| HttpReqHandles.HttpReqHandle.OnMessageCallback | http/HttpReqHandle.cpp:25-60 | an incomplete request stays, a complete one is taken and a GET is answered, a header that throws is told apart |
| UtilStrings.TrimIs | utils/utilstring.cpp:38-42 | trimming throws exactly on blank strings and otherwise removes only the spaces at both ends |
| UtilStrings.TrimSurrounded | utils/utilstring.cpp:38-42 | trimming undoes putting spaces around a trimmed string |
| UtilStrings.SplitIs | utils/utilstring.cpp:11-27 | splitting throws exactly on a delimiter at the end or an empty rest, and otherwise gives non-empty tokens that are the string without its delimiters |
| UtilStrings.SplitOfSpread | utils/utilstring.cpp:11-27 | the tokens are exactly the words, however many delimiters are before and between them |
| UtilStrings.SplitOfThree | utils/utilstring.cpp:11-27 | three tokens come back from between their delimiters |
| UtilStrings.RemoveRepeatIs | utils/utilstring.cpp:44-48 | no run is left, all other characters stay in order, and a string without runs is unchanged |
| UtilStrings.RemoveRepeatKeeps | utils/utilstring.cpp:44-48 | exactly the characters stay that are no slash, come first or follow none |
| HttpRequests.NextLine | http/HttpRequest.cpp:24-51 | the next CRLF never lies beyond the end of the header, and the lines are found one by one |
| HttpRequests.TrailingBytesStay | http/HttpRequest.cpp:14-47 | what follows the header neither matters nor is taken |
| HttpRequests.ChunksDoNotMatter | http/HttpReqHandle.cpp:25-32 | with a call after each message, also after a complete request, the division of the bytes does not matter when one call on all of them leaves nothing more to parse |
| HttpRequests.ChunksMatterExactly | http/HttpReqHandle.cpp:25-32 | and only then |
| HttpRequests.PipelinedRequests | http/HttpRequest.cpp:46-53 | two requests in one message and in two messages end differently |
| HttpRequests.RequestLineThrows | http/HttpRequest.cpp:29-30 | when the request line throws, exactly |
| HttpRequests.HeaderLineThrows | http/HttpRequest.cpp:40-43 | when a header line throws, exactly |
| HttpRequests.RequestLineIs | http/HttpRequest.cpp:28-38 | a request line is good exactly when it has three words, which become method, path without repeated slashes, and version |
| HttpRequests.LineWithoutColon | http/HttpRequest.cpp:40-43 | a header line without a colon is its own key and value |
| HttpRequests.HttpRequest.TakeLines | http/HttpRequest.cpp:24-51 | the loop ends exactly where the end of the header was found, and no retrieve before that moves the buffer |
| HttpRequests.HttpRequest.AnalyseHttpRequestHeader | http/HttpRequest.cpp:13-54 | fields, state, answer and remaining bytes for every buffer, exceptions included |
| HttpRequests.Framing | http/HttpRequest.cpp:14-51 | plain lines with CRLFs between them are found again, whatever follows them |
| HttpRequests.FieldsAreRead | http/HttpRequest.cpp:39-44 | printed header lines fill the map; of several with a key the first counts |
| HttpRequests.DistinctFields | http/HttpRequest.cpp:41-43 | with distinct keys the map is exactly the fields |
| HttpRequests.RoundTrip | http/HttpRequest.cpp:13-54 | parsing a printed request returns it, the path with each run of slashes made one, for any number of headers and any trailing bytes |
| ConsistencyHashes.SuccessorIsNearest | mdm/ConsistencyHash.cpp:49-52 | the lookup finds the one virtual key that is nearest clockwise, wrap-around included |
| ConsistencyHashes.AdditionDisruptsLittle | mdm/ConsistencyHash.cpp:12-31 | an addition leaves every key on its node or moves it to the new one, collisions included |
| ConsistencyHashes.DeletionDisruptsLittle | mdm/ConsistencyHash.cpp:33-45 | afterwards no key maps to the deleted node, and keys whose virtual key stays keep their node |
| ConsistencyHashes.DeletionSparesOthers | mdm/ConsistencyHash.cpp:40-42 | every key of another node keeps its node exactly when each erased virtual key of another node, looked up in what remains, maps to that node |
| ConsistencyHashes.DisjointKeysAreSpared | mdm/ConsistencyHash.cpp:40-42 | with disjoint virtual keys every key of another node keeps its node |
| ConsistencyHashes.RepeatedDeletionTakes | mdm/ConsistencyHash.cpp:33-45 | deleting a name again takes the virtual key that another node has brought since |
| ConsistencyHashes.AddThenDelete | mdm/ConsistencyHash.cpp:12-45 | the ring is restored exactly when no virtual key of the node was taken |
| ConsistencyHashes.AllIsConsistent | mdm/ConsistencyHash.cpp:12-62 | on every run each entry of the ring is one of its node's own virtual keys |
| ConsistencyHashes.CountsAreConserved | mdm/ConsistencyHash.cpp:48-62 | on every run the counts of all nodes add up to the lookups that found one |
| ConsistencyHashes.CountIsHits | mdm/ConsistencyHash.cpp:48-62 | on every run the count of each node is the number of lookups that found it |
| ConsistencyHashes.DeletedForGood | mdm/ConsistencyHash.cpp:14-17 | a deleted node gets no keys and cannot be added again |
| ConsistencyHashes.ConsistencyHash.AddHashNodesFromString | mdm/ConsistencyHash.cpp:12-31 | a known name is refused; otherwise the node's keys are inserted without overwriting |
| ConsistencyHashes.ConsistencyHash.DeleteHashNodesFromString | mdm/ConsistencyHash.cpp:33-45 | the node's keys are erased, its record stays |
| ConsistencyHashes.ConsistencyHash.GetMappingNodeFromKey | mdm/ConsistencyHash.cpp:48-62 | the successor's node, whose count goes up by one |
| McacheTasks.EveryCallRests | mdm/mcacheTask.cpp:49-112 | between calls a task is new with every field cleared, waits for the data of a storage command of 5 to 7 items, or is bad |
| McacheTasks.StorageHeadWaits | mdm/mcacheTask.cpp:430-467 | which storage heads are refused, and what the others leave |
| McacheTasks.ItemsOfSpread | mdm/mcacheTask.cpp:69-76 | the items of a head are the words of the line, however many spaces are around them |
| Decimals.AtoiIs | mdm/mcacheTask.cpp:443 | atoi reads each string as exactly one number: blanks, a sign, and the positional value of the digits up to the first other character |
| Decimals.TenDigits | mdm/mcacheTask.cpp:443 | the characters read as digits are the ten of a decimal numeral, each with its own value |
| Decimals.SixBlanks | mdm/mcacheTask.cpp:443 | the blanks that are skipped are the six of std::isspace |
| McacheTasks.KindIs | mdm/memProtocol.cpp:6-28 | which commands are of which kind |
| McacheTasks.OneChunk | mdm/mcacheTask.cpp:49-112 | what one more chunk of a storage command does, wherever it was cut |
| McacheTasks.Fragmentation | mdm/mcacheTask.cpp:428-540 | however a storage command is divided, head and data are forwarded once, with its last byte, and a new task and an empty buffer remain |
| McacheTasks.StoreIsForwarded | mdm/mcacheTask.cpp:49-112 | the same in terms of the protocol: words of the line, length of the data as written there, node of the key, and the reply unless the line asks for none |
| McacheTasks.BadChunkIsRefused | mdm/mcacheTask.cpp:475-482 | data that ends in something else than a CRLF is refused and the buffer emptied |
| McacheTasks.NegativeCounts | mdm/mcacheTask.cpp:470-475 | a count below -2 waits for ever, -2 and -1 throw |
| McacheTasks.RelayIs | mdm/mcacheTask.cpp:488-539 | when the exchange with a node succeeds and what is sent to whom then, and what a failure leaves |
| McacheTasks.LineIsRefused | mdm/mcacheTask.cpp:79-112 | which lines are refused, and with which message |
| McacheTasks.LineIsRelayed | mdm/mcacheTask.cpp:114-309 | which lines of delete, incr, decr, touch, flush_all and version go to which node, and what the client gets |
| McacheTasks.QuitIsBad | mdm/mcacheTask.cpp:120-122 | quit makes the task bad without a word |
| McacheTasks.RetrievalIs | mdm/mcacheTask.cpp:311-426 | what a retrieval asks the nodes and passes on, and when it fails |
| McacheTasks.NulIsStuck | mdm/mcacheTask.cpp:475-482 | data with a NUL ends every later call in an exception |
| McacheTasks.BadIsForgotten | mdm/mcacheTask.cpp:428-540 | the next call renews a bad task without reading the buffer |
| McacheTasks.McacheTask.TaskCommunition | mdm/mcacheTask.cpp:49-112 | task, buffer, replies, forwarded text and answer for every buffer |
| McacheTasks.McacheTask.HandleStrogeCmd | mdm/mcacheTask.cpp:428-540 | the same for a storage command |
| McacheTasks.McacheTask.HandleRetriveCmd | mdm/mcacheTask.cpp:311-426 | the same for a retrieval |
| McacheTasks.McacheTask.GatherAnswers | mdm/mcacheTask.cpp:383-420 | the nodes are asked in the order of the reports, each answer goes to the client at once, a failed connection ends it |
| McacheTasks.RetrievalStopsAtFirstFailure | mdm/mcacheTask.cpp:383-420 | the client has what the nodes before the first failed connection gave, and no later one is asked |
| McacheTasks.McacheTask.HandleDeleteCmd | mdm/mcacheTask.cpp:245-309 | the same for delete |
| McacheTasks.McacheTask.HandleIncrDecrCmd | mdm/mcacheTask.cpp:177-243 | the same for incr and decr |
| McacheTasks.McacheTask.HandleOtherCmd | mdm/mcacheTask.cpp:114-175 | the same for touch, flush_all, version and quit |
| McacheTasks.McacheTask.Renew | mdm/mcacheTask.cpp:30-47 | every field is cleared |

## Left out

- System calls: epoll, readv, write, timerfd_settime, eventfd, sockets, stat, open and read are
  parameters that may take any value the calls allow; the poller's add, mod and del succeed
  unless the descriptor is there (add) or is not there (mod).
- Threads, mutexes and conditions: a lock section is one step. The loop's look at updates_
  without the lock is taken as one atomic read.
- Closing a descriptor and reusing its number before its deletion has been flushed.
- Lifetimes of handles and connections kept by shared pointers; the buckets of connections and
  loops, thread pools, sockets, addresses, logging, configuration and JSON.
- size_t wrap-around in the buffer's sizes, and the parts of base/Buffer.cpp that only forward
  to the modelled ones.
- Md5.MD5.GenerateMD5: negative lengths; also left out are the other constructors of MD5, its hexadecimal
  text and its conversions to integers.
- TimersSchedulers.TimersScheduler.HandleRead: an operation of a callback that uses a freed timer,
  or a deletion that dangles, has no defined effect in the source and is skipped. Timers are
  identified by their address; what a callback does besides adding and deleting timers is not
  modelled, the interval is a number of microseconds, and the timerfd is not read, as in the
  source. Whether it becomes readable again without being armed is up to the kernel.
- TcpConnections.TcpConnection.HandleRead: the branch for an event of another descriptor, which is
  only reached when a handle is called with a foreign event; the connection is used from its
  loop's thread. Setting the callbacks counts as part of the set-up.
- HttpReqHandles.HttpReqHandle.SendMassData: the failure of lseek, which goes on with a cleared
  context, and a file that changes while it is sent.
- HttpReqHandles.FileDelivery: a second request on the connection during the delivery, which
  starts the context anew, and errors of the peer (end of file, hang-up, a write of no bytes).
- HttpRequests.HttpRequest.AnalyseHttpRequestHeader: the body of a request is not parsed by the source.
- StringTrimLeft, StringTrimRight and StringGetSuffix, the table of content types and the response
  setters of the HTTP part.
- ConsistencyHashes.ConsistencyHash.AddHashNodesFromString: how the virtual keys of a node are made
  (MD5 of names with random numbers) is left open; the keys come with the call. The wrap of a
  count after 2^64 lookups is not modelled.
- McacheTasks.McacheTask.TaskCommunition: the exchange with the nodes is given by its outcome; a
  count that does not fit an int and the copy of the buffer up to the first NUL beyond the readable
  bytes are not modelled. A touch command of four items reads beyond its items; what it finds
  there is arbitrary. hasReadBytes_ and server_ are never used for a decision and are omitted.
