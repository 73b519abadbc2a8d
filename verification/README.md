# Proofs about libwebsocket-component

This project models the protocol engines and data structures of libwebsocket-component, a
WebSocket server stack on a modified muduo reactor, and proves what they promise. It is
written in Dafny; `dafny verify dfyconfig.toml` covers all of it.

**WebSocket.** `Wire` is the frame format of RFC 6455, `Delivery` the meaning of a sequence
of frames, both without any notion of buffers. `Parser` is the resumable parser, a class that
is proved to reach, after every call, the one context that is a function of the octets
received. `Sessions` states what a client can rely on from end to end. `Packer` is the sending
side, with a client's reading of it as the reference.

**The reactor.** `EventLoop` is the cross-thread queue and its wakeup protocol, a state machine
over the interleaved steps of all threads. `Timers` and `TimerRuns` hold the timer queue as
operations on values and what every run of them keeps, `TimerQueue` the class that carries them
out; `TimerSchedule` says when each timer is called. `AsyncLogging` is the double-buffered logger, protocol and class. `ByteBuffer`, `PollPoller`
and `ConnBucket` are the network buffer, the poll index and the timing wheel.

**Codecs.** `AesField`, `AesColumn`, `AesBlock`, `AesMessage` and `AesCipher` are AES-128 in ECB
mode, from the arithmetic of bytes to whole messages. `Sha1`, `BlockStream` and `HashContexts`
are SHA-1 and the streaming of SHA-1 and MD5. `AesExample` and `Sha1Example` are the examples
printed in FIPS 197 and RFC 3174, derived from the definitions. `Base64` and `HttpParser` are the base 64 codec
and the incremental request parser.

**Calendar.** `Calendar` and `UtcTime` are Julian day numbers and UTC conversion, measured
against a calendar that only knows leap years, months and the next day.

`Octets`, `Sequences` and `Options` are shared by the others.

Conventions: octets and counters are integers with every truncation and wrap-around written
out; the words of AES and SHA-1 are bit-vectors, and exclusive or on the AES state is written
`Add`. Assertions of the source appear as `assert` or as proved preconditions. The clock, the
kernel, allocation and callbacks are parameters, so that every statement is about all of them.

Where the code and its comments or documentation differ, the model follows the code:

- unmasking counts from the start of the message, not of the frame (`Sessions.UnmaskUndoesMask`);
- a length beyond 16 bits is cast to 16 bits before it is sent (`Packer.LongFieldTrue`);
- a header line without a colon, empty or not, ends the headers (`HttpParser.Parse`);
- the remainder in `weekDay()` is taken towards zero (`UtcTime.WeekDayNamed`);
- the length read by `decrypt()` is not compared with the padding it stands for (`AesMessage.Unpadded`).

## Model

| member | source | states |
|---|---|---|
| Wire.EncodeRoundTrip | libwebsocket/private/websocket.cc:417-557 | Every masked frame whose length fits 64 bits is read back from its shortest encoding, whatever follows: same FIN, opcode, key and payload, and exactly the rest left over. |
| Wire.LaidOutReads | libwebsocket/private/websocket.cc:2408-2467 | The same for any length field that spells the payload length, shortest or not. |
| Wire.CompleteExtends | libwebsocket/private/websocket.cc:3559-3643 | A frame complete at the front of a stream does not change when more octets arrive. |
| Delivery.ScanResumes | libwebsocket/private/websocket.cc:3559-3643 | Reading a whole stream frame by frame may be stopped anywhere and resumed from the unfinished rest. |
| Delivery.AcceptedResumes | libwebsocket/private/websocket.cc:2185-2326 | A stream that meets every assertion of the source meets them up to each cut point, and so does the remainder after it. |
| Delivery.ScanKeepsKind | libwebsocket/private/websocket.cc:2185-2326 | The message under assembly is a text or a binary one after every stream. |
| Parser.Message.UnMaskPayloadData | libwebsocket/private/websocket.cc:985-1002 | The octets appended last, and only they, are unmasked, each once, by exclusive or with the key octet at its offset in the message modulo four. |
| Parser.Message.Take | libwebsocket/private/websocket.cc:2717-2842 | One payload moves from the input buffer to the message and is unmasked once; the offset of the next segment is the length of the message. |
| Parser.Message.Reset | libwebsocket/private/websocket.cc:962-977 | A message is emptied and its segment offset returns to zero. |
| Parser.Context.ValidateMessageFrame | libwebsocket/private/websocket.cc:2185-2326 | A head frame sets the type of the data message, a control frame that of the control message, and neither touches the other; a continuation finds a text or binary message, and a first frame an empty one. |
| Parser.Context.ReadHeader | libwebsocket/private/websocket.cc:2475-2525 | Step 1: two octets or none are taken, and the next step is the one the length octet announces. |
| Parser.Context.ReadLengthU16 | libwebsocket/private/websocket.cc:2529-2576 | Step 2: the 16-bit length is taken whole or not at all. |
| Parser.Context.ReadLengthI64 | libwebsocket/private/websocket.cc:2580-2627 | Step 3: the 64-bit length is taken whole or not at all. |
| Parser.Context.ReadMaskingKey | libwebsocket/private/websocket.cc:2631-2713 | Step 4: the key is taken whole or not at all; a frame with no payload is delivered here. |
| Parser.Context.ReadUncontrolPayload | libwebsocket/private/websocket.cc:2717-3089 | A data payload is taken and delivered exactly when all of it has arrived; otherwise nothing moves. The length field and the step are those each of the three readers asserts. |
| Parser.Context.ReadControlPayload | libwebsocket/private/websocket.cc:3093-3555 | A control payload likewise, for the two readers that can be reached; the data message under assembly is kept, except that a Close drops it. |
| Parser.Context.AnswerControl | libwebsocket/private/websocket.cc:3093-3244 | A complete control message is called back with its body and cleared, the data message under assembly kept; a Close also forces the close and drops it. |
| Parser.Context.ReadBody | libwebsocket/private/websocket.cc:3582-3640 | The branch on the step and on the frame type computed before the loop: a stale type only ever meets a short payload of which too little has arrived, and the control reader for 16-bit lengths, whose assertion would fail, is never called. |
| Parser.Context.ParseStep | libwebsocket/private/websocket.cc:3583-3641 | Every iteration takes an octet or ends the loop, keeps the context canonical for the octets consumed, and no assertion of the source fails. |
| Parser.Context.ParseFrame | libwebsocket/private/websocket.cc:3559-3643 | One call works off everything that can be worked off, whatever the previous calls left. |
| Parser.Context.ParseMessageFrame | libwebsocket/private/websocket.cc:3846-3885 | After every call the context and the buffer are functions of all octets received so far. |
| Parser.Context.Arrive | libwebsocket/private/websocket.cc:3846-3885 | An arrival of any octets, from the socket to the callbacks: the context and the buffer stay functions of all octets received. |
| Parser.CutAccepted | libwebsocket/private/websocket.cc:3559-3643 | At each cut point of an acceptable stream the part received is acceptable and the connection is still open. |
| Parser.Receive | libwebsocket/private/websocket.cc:3559-3643 | Resumability: for every acceptable masked client stream and every way of cutting it into calls, the callbacks, the final context and the octets left over are those of the stream taken whole. |
| Sessions.LegalSessionAccepted | libwebsocket/private/websocket.cc:2185-2326 | Every client session that RFC 6455 allows is acceptable, and its whole-stream reading delivers its frames one by one with nothing left over. |
| Sessions.ControlFramesDoNotInterfere | libwebsocket/private/websocket.cc:3093-3244 | Striking the control frames out of a legal session changes neither the data messages delivered nor the one under assembly. |
| Sessions.ControlFramesAnswered | libwebsocket/private/websocket.cc:3093-3244 | Each control frame is answered once, in order, wherever it was inserted. |
| Sessions.UnmaskUndoesMask | libwebsocket/private/websocket.cc:985-1002 | Unmasking by message offset undoes section 5.3 masking of a fragment, octet i the exclusive or of plain octet i and key octet i modulo four, if and only if the key reads the same from that offset; a multiple of four always does. |
| Sessions.ControlBodyIntact | libwebsocket/private/websocket.cc:3093-3244 | The application data of every Ping, Pong and Close comes back as the client wrote it. |
| Sessions.HelloDelivered | libwebsocket/private/websocket.cc:985-1002 | The masked example of section 5.7 of RFC 6455 is delivered as the text Hello. |
| Sessions.ClosedByClose | libwebsocket/private/websocket.cc:3093-3244 | The connection is closed by a Close frame and by nothing else. |
| Sessions.AssembledIntact | libwebsocket/private/websocket.cc:985-1002 | The assembled body is the plain text sent if and only if that holds for every fragment. |
| Sessions.FragmentsCanArriveDamaged | libwebsocket/private/websocket.cc:985-1002 | A message of two fragments that the receiver assembles wrongly. |
| Sessions.TwoFragmentsIntact | libwebsocket/private/websocket.cc:985-1002 | For two fragments, the condition spelled out on the first length and the second key. |
| Sessions.FragmentsDelivered | libwebsocket/private/websocket.cc:2717-2842 | A fragmented message is delivered once, on its FIN frame, with the opcode of its head frame. |
| Sessions.MessagesDelivered | libwebsocket/private/websocket.cc:2717-2842 | So is every message of a session, in order. |
| Sessions.EndToEnd | libwebsocket/private/websocket.cc:2185-3643 | From client to callback, on the parser object itself: any messages, any fragmentation, any interleaved control frames, any cuts; one callback per message and one per control frame, nothing held back, closed if and only if a Close frame came, and the bodies intact exactly when every fragment starts where its key turns. |
| Packer.EncodePlainReads | libwebsocket/private/websocket.cc:1557-1585 | A server frame of at most 65535 octets is read back by a client, whatever follows. |
| Packer.LongFieldTrue | libwebsocket/private/websocket.cc:1630-1645 | The eight octets written for a longer length spell it if and only if its low 48 bits are the sign fill of the 16-bit cast. |
| Packer.LongFrameReads | libwebsocket/private/websocket.cc:1615-1654 | A frame with that field is read back exactly under the same condition. |
| Packer.PackUncontrolFrame | libwebsocket/private/websocket.cc:1615-1654 | Appends exactly the encoding of one data frame, or the frame with the cast length field. |
| Packer.PackControlFrame | libwebsocket/private/websocket.cc:1657-1701 | Appends exactly the encoding of one control frame. |
| Packer.PackDataFrameChunk | libwebsocket/private/websocket.cc:1847-1916 | Appends one head frame, middle frames and one final frame, each full but the last, that join to the payload; a payload whose rest exceeds 2^63 - 1 octets is cut off after its head frame, since the rest is counted in a signed word. |
| Packer.ChunkingReads | libwebsocket/private/websocket.cc:1847-1916 | A client that follows sections 5.2 and 5.4 reads such frames back as the payload and its type. |
| Packer.HeadUnreadable | libwebsocket/private/websocket.cc:1847-1916 | A head frame alone is read back as no message. |
| Packer.PackDataFrame | libwebsocket/private/websocket.cc:1919-1952 | For every payload a size_t can count: what is appended reads back as the payload and its type if and only if it was chunked and its rest fits a signed word, or was not and is at most 65535 octets or has a length the cast does not change. |
| Packer.LongMessagesUnreadable | libwebsocket/private/websocket.cc:1637-1637 | No payload from 2^16 up to 2^48 octets survives unchunked packing. |
| EventLoop.StepKeepsInv | muduo-vip/muduo/net/EventLoop.cc:104-304 | Every step of every thread keeps the invariant of the queue, the wakeup counter and the loop position. |
| EventLoop.NoLostWakeup | muduo-vip/muduo/net/EventLoop.cc:104-177 | Over every interleaving that ends in poll, exactly: the loop sleeps on queued functors with no wakeup written or under way if and only if its own thread has queued before the first turn and until now no other thread has queued or woken it. |
| EventLoop.NoLostWakeupWhileLooping | muduo-vip/muduo/net/EventLoop.cc:104-177 | If the loop thread queues only once it loops, no wakeup is ever lost. |
| EventLoop.EarlyQueueingSleeps | muduo-vip/muduo/net/EventLoop.cc:104-177 | After any preparation, loop() goes to sleep on queued functors if and only if its own thread has queued some, no other thread has queued any and no wakeup has been written. |
| EventLoop.EarlyQueueingCanSleep | muduo-vip/muduo/net/EventLoop.cc:104-177 | A run in which the loop sleeps on a functor its own thread queued before loop(). |
| EventLoop.EachOnceInOrder | muduo-vip/muduo/net/EventLoop.cc:280-304 | In every interleaving the functors queued are those started, those swapped out and those pending, in that order: each exactly once, in queue order. |
| EventLoop.TurnRunsPending | muduo-vip/muduo/net/EventLoop.cc:104-139 | Everything queued when the loop polls has been started, in order, when it next tests quit_, whatever the other threads do. |
| EventLoop.QuitWakesPoll | muduo-vip/muduo/net/EventLoop.cc:141-151 | A quit requested while the loop sleeps has woken it or is about to. |
| EventLoop.QuitIsKept | muduo-vip/muduo/net/EventLoop.cc:104-151 | Over every interleaving, quit_ is set if and only if some quit() has had no loop() after it. |
| EventLoop.ReturnedWasAsked | muduo-vip/muduo/net/EventLoop.cc:104-139 | Over every interleaving, loop() has returned only if some quit() has had no loop() after it. |
| EventLoop.TestPolls | muduo-vip/muduo/net/EventLoop.cc:111-139 | At its test, after every interleaving, the loop returns if such a quit() has come and polls again if not. |
| EventLoop.FullTurn | muduo-vip/muduo/net/EventLoop.cc:111-139 | Everything queued before a poll() has been started, in order, once the loop tests quit_ after it, whatever the other threads do meanwhile. |
| EventLoop.QueuedGetStarted | muduo-vip/muduo/net/EventLoop.cc:104-304 | From every state the loop can be in while no quit() is due, steps of the loop thread alone start everything queued, in order, and lead back to poll() with the queue and the counter empty. |
| EventLoop.QuitBeforeLoopIsForgotten | muduo-vip/muduo/net/EventLoop.cc:104-151 | A run in which the loop sleeps although a quit() came before loop(). |
| Timers.ListingAscends | muduo-vip/muduo/net/TimerQueue.cc:183-202 | The order in which expired timers are listed: exactly the elements of the set, strictly ascending by time, then address. |
| Timers.DueListed | muduo-vip/muduo/net/TimerQueue.cc:183-202 | The list taken holds exactly the timers due, none early, in order. |
| Timers.HandleReadCallsDue | muduo-vip/muduo/net/TimerQueue.cc:163-181 | One handleRead() calls back exactly the timers due, each once, in order of expiration, whatever the callbacks add and cancel. |
| Timers.CreateKeeps | muduo-vip/muduo/net/TimerQueue.cc:116-124 | A new timer gets a fresh sequence number and disturbs nothing. |
| Timers.AddKeeps | muduo-vip/muduo/net/TimerQueue.cc:132-141 | Adding keeps both indexes, the accounts, the cancel protocol and the arming of the timerfd. |
| Timers.CancelKeeps | muduo-vip/muduo/net/TimerQueue.cc:143-161 | So does cancelling, inside a callback or outside, of a timer that is queued, in the batch or gone. |
| Timers.TakeKeeps | muduo-vip/muduo/net/TimerQueue.cc:183-202 | So does taking the expired timers out. |
| Timers.CallsKeep | muduo-vip/muduo/net/TimerQueue.cc:163-176 | So does every callback of the batch. |
| Timers.ResetBatchKeeps | muduo-vip/muduo/net/TimerQueue.cc:204-222 | So does restarting or deleting each timer of the batch. |
| Timers.FinishKeeps | muduo-vip/muduo/net/TimerQueue.cc:224-232 | And arming the timerfd for the earliest timer left. |
| TimerRuns.EveryRunIsSound | muduo-vip/muduo/net/TimerQueue.cc:116-259 | All of this holds after every run of creating, adding, cancelling and firing, with adds and cancels inside callbacks. |
| TimerRuns.SameTimersInBothIndexes | muduo-vip/muduo/net/TimerQueue.cc:235-259 | timers_ and activeTimers_ hold exactly the same timers, equally many, and every key is its timer's expiration. |
| TimerRuns.EachFreedOnce | muduo-vip/muduo/net/TimerQueue.cc:143-222 | Every timer ever created is allocated or has been freed, never both. |
| TimerRuns.ArmedForEarliest | muduo-vip/muduo/net/TimerQueue.cc:41-55 | While timers are queued, the timerfd is set for the earliest of them or earlier, up to the floor of 100 microseconds. |
| TimerRuns.CancelledRunsAtMostOnceMore | muduo-vip/muduo/net/TimerQueue.cc:143-222 | Between operations a cancelled timer is freed and has run at most once since its cancellation. |
| TimerRuns.FreedNeverRuns | muduo-vip/muduo/net/TimerQueue.cc:143-233 | Over every run, a freed timer is never called back again. |
| TimerRuns.CancelIsFinal | muduo-vip/muduo/net/TimerQueue.cc:143-161 | Cancelling a queued timer is final, whatever happens later and whoever gets its address. |
| TimerRuns.CancelInCallback | muduo-vip/muduo/net/TimerQueue.cc:143-233 | Over every run, with the cancel inside any callback of any batch: the timer is called back again if and only if its own callback was still to come in that batch, never after it, and never at all if it was queued. |
| TimerRuns.EveryRunKeepsPromises | muduo-vip/muduo/net/TimerQueue.cc:116-259 | After every run from an empty queue: equally many timers in both indexes, each timer allocated or freed, the timerfd armed in time, and cancelled timers freed after at most one more call. |
| TimerSchedule.AddedAsAsked | muduo-vip/muduo/net/TimerQueue.cc:116-141 | addTimer() queues a timer with the time, the repetition and the interval asked for, under a new sequence number. |
| TimerSchedule.CreatedAsAsked | muduo-vip/muduo/net/TimerQueue.cc:116-141 | So does addTimer() in another thread, once the loop thread has taken it up. |
| TimerSchedule.AddedInCallback | muduo-vip/muduo/net/TimerQueue.cc:163-181 | So does addTimer() inside a callback, whatever the rest of the batch does, once handleRead() is over. |
| TimerSchedule.KeptUntilCalled | muduo-vip/muduo/net/TimerQueue.cc:116-259 | Over every run in which nobody cancels it, a queued timer stays queued, at its address, with its time, repetition and interval, until it is called back. |
| TimerSchedule.CalledComesBack | muduo-vip/muduo/net/TimerQueue.cc:204-222 | Every timer due that repeats and is not cancelled inside the batch is queued again at its address, with its number and interval, for now plus the interval; every other timer due is freed. |
| TimerSchedule.FirstCall | muduo-vip/muduo/net/TimerQueue.cc:163-202 | Over every run that neither cancels a queued timer nor calls it, the next handleRead() calls it if and only if its time has come. |
| TimerSchedule.EveryInterval | muduo-vip/muduo/net/Timer.cc:16-26 | After every run from an empty queue: a repeating timer that was called back and is not cancelled is called back again by the first later handleRead() that comes an interval or more after that call, and by no earlier one. |
| TimerSchedule.ReadArms | muduo-vip/muduo/net/TimerQueue.cc:224-232 | After every handleRead() that leaves a valid time first, the timerfd is set for that time or for 100 microseconds from now, whichever is later. |
| TimerSchedule.AddArms | muduo-vip/muduo/net/TimerQueue.cc:132-141 | Adding sets the timerfd for the new timer exactly when it is earlier than all the others, and leaves it alone otherwise. |
| TimerQueue.TimerQueue.AddTimerInLoop | muduo-vip/muduo/net/TimerQueue.cc:132-141 | The class does what AddKeeps is about. |
| TimerQueue.TimerQueue.CancelInLoop | muduo-vip/muduo/net/TimerQueue.cc:143-161 | The class does what CancelKeeps is about. |
| TimerQueue.TimerQueue.GetExpired | muduo-vip/muduo/net/TimerQueue.cc:183-202 | Removes exactly the timers due from both indexes and returns them in order. |
| TimerQueue.TimerQueue.Reset | muduo-vip/muduo/net/TimerQueue.cc:204-233 | The loop restarts the repeating timers that were not cancelled, deletes the others and arms the timerfd, as the operation that CalledComesBack and ReadArms are about. |
| TimerQueue.TimerQueue.HandleRead | muduo-vip/muduo/net/TimerQueue.cc:163-181 | The whole of handleRead() on the class equals the operation that HandleReadCallsDue, CalledComesBack and EveryInterval are about. |
| TimerQueue.TimerQueue.Insert | muduo-vip/muduo/net/TimerQueue.cc:235-259 | Inserts into both indexes and reports whether the earliest timer changed. |
| AsyncLogging.EveryRunKeeps | muduo-vip/muduo/base/AsyncLogging.cc:34-135 | Every interleaving of append() and stop() with the logging thread, stop() between its test and its wait included, keeps lines conserved, output reported and spares stocked. |
| AsyncLogging.LinesConserved | muduo-vip/muduo/base/AsyncLogging.cc:34-133 | In every interleaving the lines accepted are, in order, those of the batches written, the batch in flight, the queued buffers and the current buffer; the output is that of the batches written, each with all its buffers or, beyond 25, with a notice and its first two. |
| AsyncLogging.PrefixWritten | muduo-vip/muduo/base/AsyncLogging.cc:34-133 | If no batch was too large, the log file holds a prefix of the lines accepted. |
| AsyncLogging.RecyclingFindsBuffers | muduo-vip/muduo/base/AsyncLogging.cc:69-131 | The spare buffers are there when taken, recycling never runs out of written buffers, and nextBuffer_ is missing only when a buffer is queued. |
| AsyncLogging.StoppedIsComplete | muduo-vip/muduo/base/AsyncLogging.cc:58-135 | Over every run that ends with the logging thread gone: the log file is complete if and only if no line was appended after the last swap and none was in a dropped buffer; if no batch was too large, the first alone decides. |
| AsyncLogging.LeftInBuffers | muduo-vip/muduo/base/AsyncLogging.cc:34-90 | Over every run, the buffers of append() hold a line if and only if one was appended after the last swap. |
| AsyncLogging.BatchesSplit | muduo-vip/muduo/base/AsyncLogging.cc:92-106 | The lines of all batches are those written and those in dropped buffers. |
| AsyncLogging.StoppingCanLeaveLines | muduo-vip/muduo/base/AsyncLogging.cc:58-135 | A run that leaves an accepted line unwritten. |
| AsyncLogging.StoppedWasAsked | muduo-vip/muduo/base/AsyncLogging.cc:69-69 | Over every run, running_ is cleared exactly by stop(), and the thread leaves only after it. |
| AsyncLogging.TestGoesOn | muduo-vip/muduo/base/AsyncLogging.cc:69-69 | At its test, after every run, the thread goes on if no stop() has come and leaves if one has. |
| AsyncLogging.LinesGetOut | muduo-vip/muduo/base/AsyncLogging.cc:58-113 | After every run that is at the test with no stop(), one round of the thread empties the buffers of append(); the log file then holds every line accepted if and only if none was in a dropped buffer. |
| AsyncLogging.BuffersFit | muduo-vip/muduo/base/AsyncLogging.cc:34-56 | In every run, the lines of a buffer fit it. |
| AsyncLogging.BuffersFilled | muduo-vip/muduo/base/AsyncLogging.cc:34-56 | In every run whose lines are shorter than a buffer, a buffer is queued only when the next line does not fit it. |
| AsyncLogging.NoticeCounts | muduo-vip/muduo/base/AsyncLogging.cc:92-102 | The notice of a batch too large counts the buffers that are not written, all but the first two. |
| AsyncLogging.AsyncLogging.Append | muduo-vip/muduo/base/AsyncLogging.cc:34-56 | append() on the class is the step of the protocol. |
| AsyncLogging.AsyncLogging.TestRunning | muduo-vip/muduo/base/AsyncLogging.cc:69-69 | The loop test on the class is the step of the protocol that TestGoesOn is about. |
| AsyncLogging.AsyncLogging.CollectBatch | muduo-vip/muduo/base/AsyncLogging.cc:69-90 | The critical section of the logging thread, whether or not stop() has come since its test, is the step of the protocol; its assertions hold. |
| AsyncLogging.AsyncLogging.WriteBatch | muduo-vip/muduo/base/AsyncLogging.cc:90-113 | Dropping, writing and trimming a batch is the step of the protocol. |
| AsyncLogging.AsyncLogging.RecycleBuffers | muduo-vip/muduo/base/AsyncLogging.cc:115-132 | Recycling is the step of the protocol; its assertions hold. |
| AesField.MultiplyIsTimes | https/AES_Cipher.cpp:82-89 | Multiply() is multiplication in GF(2^8) modulo x^8+x^4+x^3+x+1 for each factor the source multiplies by. |
| AesField.XtimeIsTimes | https/AES_Cipher.cpp:77-80 | xtime() is multiplication by 02, and with the byte added by 03. |
| AesField.MultiplyAdds | https/AES_Cipher.cpp:82-89 | Multiplication distributes over exclusive or. |
| AesField.RsboxSbox | https/AES_Cipher.cpp:6-42 | The inverse table undoes the S-box on every byte. |
| AesField.SboxRsbox | https/AES_Cipher.cpp:6-42 | And the S-box undoes the inverse table. |
| AesField.SboxIsInverse | https/AES_Cipher.cpp:6-23 | Every entry of the S-box is the affine map of the multiplicative inverse of its index, as section 5.1.1 of FIPS 197 constructs it. |
| AesField.RconPowers | https/AES_Cipher.cpp:44-60 | The ten round constants are the powers of x, each twice the one before. |
| AesColumn.MixColumnInverts | https/AES_Cipher.cpp:288-412 | MixColumns and InvMixColumns are inverse on every column, both ways. |
| AesBlock.LayersAreInverse | https/AES_Cipher.cpp:6-113 | Key addition, substitution and mixing undo each other. |
| AesBlock.MetAlways | https/AES_Cipher.cpp:342-365 | Cipher and inverse cipher that meet between two rounds meet between all of them. |
| AesBlock.DecipherUndoesEncipher | https/AES_Cipher.cpp:342-470 | One block enciphers to another if and only if that deciphers to it. |
| AesBlock.DecipherInverts | https/AES_Cipher.cpp:342-470 | For every key schedule, deciphering undoes enciphering and enciphering undoes deciphering. |
| AesMessage.UnpaddedPadded | https/AES_Cipher.cpp:203-210 | Taking off as many bytes as the last one says undoes the padding of every message. |
| AesMessage.PaddingTells | https/AES_Cipher.cpp:203-210 | The message comes first, and every byte appended to it is the number of bytes appended. |
| AesMessage.RoundTrip | https/AES_Cipher.cpp:183-286 | For every key and message, what is deciphered block by block is the padded message, and unpads to the message. |
| AesCipher.Cipher.KeyExpansion | https/AES_Cipher.cpp:115-181 | Every byte after the key is the byte sixteen before it plus the byte four before it, or, in every fourth word, plus the substituted byte of the previous word one place on, with the power of x added to the first: section 5.2 of FIPS 197, byte by byte. |
| AesCipher.Cipher.AddRoundKey | https/AES_Cipher.cpp:91-101 | On the row layout, adds the round key of the column layout. |
| AesCipher.Cipher.InvAddRoundKey | https/AES_Cipher.cpp:103-113 | On the column layout, adds the same round key. |
| AesCipher.Cipher.SubBytes | https/AES_Cipher.cpp:303-313 | Substitutes every byte. |
| AesCipher.Cipher.ShiftRows | https/AES_Cipher.cpp:315-340 | On the row layout, rotates row r by r columns. |
| AesCipher.Cipher.MixColumns | https/AES_Cipher.cpp:288-301 | On the row layout, the doubling trick computes the matrix of section 5.1.3. |
| AesCipher.Cipher.Encipher | https/AES_Cipher.cpp:342-365 | Ten rounds on the row layout are the cipher on the block. |
| AesCipher.Cipher.InvSubBytes | https/AES_Cipher.cpp:414-424 | Substitutes back every byte. |
| AesCipher.Cipher.InvShiftRows | https/AES_Cipher.cpp:426-452 | On the column layout, rotates the rows back. |
| AesCipher.Cipher.InvMixColumns | https/AES_Cipher.cpp:396-412 | On the column layout, multiplies by the matrix of section 5.3.3. |
| AesCipher.Cipher.Decipher | https/AES_Cipher.cpp:454-470 | Ten rounds on the column layout are the inverse cipher on the block. |
| AesCipher.Cipher.EncryptBlock | https/AES_Cipher.cpp:367-394 | Loading transposed and storing transposed, one block of the output is the block of the input enciphered, and no other byte changes. |
| AesCipher.Cipher.DecryptBlock | https/AES_Cipher.cpp:472-479 | Loading and storing as it lies, one block is deciphered, and no other byte changes. |
| AesCipher.Cipher.Encrypt | https/AES_Cipher.cpp:183-235 | Fails exactly for a null source or too little room; otherwise the output is the padded message enciphered block by block, its length is set and a zero follows. |
| AesCipher.Cipher.Decrypt | https/AES_Cipher.cpp:237-286 | In place or not, fails for a null, empty, oversized or ragged source and for a last byte that is no length; otherwise the output is the message, its length is set and a zero follows. |
| AesCipher.SendAndReceive | https/AES_Cipher.cpp:183-286 | Every message of at most 1023 bytes, encrypted and then decrypted under any key, comes back with its length. |
| AesExample.Example | https/AES_Cipher.cpp:342-470 | The cipher takes the plain text of appendix B of FIPS 197 to the cipher text printed there, under the key printed there, and the inverse cipher takes it back. |
| AesExample.EncryptExample | https/AES_Cipher.cpp:367-394 | So does the object, from the sixteen bytes of the key and the block to those of the output. |
| Calendar.NextDayNumber | muduo-vip/muduo/base/Date.cc:20-27 | The day that follows a date of the calendar has the number that follows. |
| Calendar.DateRoundTrip | muduo-vip/muduo/base/Date.cc:20-42 | Every date from 1 March -4800 on is read back from its number. |
| Calendar.ClosedFormCounts | muduo-vip/muduo/base/Date.cc:29-42 | getYearMonthDay() is the date that counting day by day from 1 March -4800 arrives at. |
| Calendar.NumberRoundTrip | muduo-vip/muduo/base/Date.cc:20-42 | Every number from -32044 on is the number of a valid date, the one it is converted to. |
| Calendar.NumbersAreOrdered | muduo-vip/muduo/base/Date.cc:20-27 | Comparing numbers, as operator< does, is comparing dates. |
| Calendar.NoRoundTripBefore | muduo-vip/muduo/base/Date.cc:20-27 | 29 February -4800 has the number of the day after it. |
| Calendar.DateRoundTripExactly | muduo-vip/muduo/base/Date.cc:20-42 | A date of the calendar in any year is read back from its number if and only if it is 1 March -4800 or later. |
| Calendar.NumberOfADate | muduo-vip/muduo/base/Date.cc:29-42 | A number is converted to a date of the calendar if and only if it is -32044 or more; below, the day is zero or negative. |
| Calendar.DecodingFits | muduo-vip/muduo/base/Date.cc:29-42 | From number -32044 on, every intermediate value and result fits 32 bits if and only if the number is at most 536838867. |
| Calendar.EncodingFits | muduo-vip/muduo/base/Date.cc:20-27 | For every date up to that number, so does every intermediate value and the result of getJulianDayNumber(). |
| Calendar.EpochNumber | muduo-vip/muduo/base/Date.cc:44-44 | 1 January 1970 is number 2440588. |
| UtcTime.FillHMS | muduo-vip/muduo/base/TimeZone.cc:76-82 | Hours, minutes and seconds within range that add up to the second of the day. |
| UtcTime.FillDate | muduo-vip/muduo/base/TimeZone.cc:332-346 | The date fields are those of the one valid date with the number of the day. |
| UtcTime.ToUtcTime | muduo-vip/muduo/base/TimeZone.cc:322-348 | For every representable moment, before the epoch or after it, a valid civil time that converts back to the moment, with its day of the week and, if asked for, of the year. |
| UtcTime.CivilTimeUnique | muduo-vip/muduo/base/TimeZone.cc:356-363 | No two civil times are the same moment, so the other round trip holds as well. |
| UtcTime.CivilTimeOrdered | muduo-vip/muduo/base/TimeZone.cc:356-363 | A later moment is a later civil time. |
| UtcTime.TicksCount | muduo-vip/muduo/base/TimeZone.cc:356-363 | The conversion of a civil time counts seconds: zero at the epoch, and one more with each tick of a clock that carries into minutes, hours, days, months and years. |
| UtcTime.WeekDaysFollow | muduo-vip/muduo/base/Date.h:96-99 | From day -1 on, the days of the week follow one another, and 1 January 1970 is a Thursday. |
| UtcTime.WeekDayNamed | muduo-vip/muduo/base/Date.h:96-99 | weekDay() is a day of the week if and only if the number is at least -1 or one less than a multiple of seven. |
| UtcTime.DaysOfYear | muduo-vip/muduo/base/TimeZone.cc:342-346 | The day of the year is the sum of the months before plus the day of the month less one, and one short of that exactly in the year -4800. |
| Sha1.ChooseRewritten | libwebsocket/private/sha1.cc:49-50 | The rewritten choose function is that of RFC 3174. |
| Sha1.MajorityRewritten | libwebsocket/private/sha1.cc:52-52 | So is the rewritten majority function. |
| Sha1.RoundSum | libwebsocket/private/sha1.cc:48-53 | Each range of rounds adds its logical function and its constant. |
| Sha1.SwapReads | libwebsocket/private/sha1.cc:37-39 | Byte-swapping a word read in memory order gives the big-endian word. |
| Sha1.Blk | libwebsocket/private/sha1.cc:45-46 | Each word of the schedule takes the place of the one sixteen before it, and the window holds the last sixteen. |
| Sha1.R | libwebsocket/private/sha1.cc:48-53 | One macro call is one round of RFC 3174, with the variables renamed instead of moved. |
| Sha1.Transform | libwebsocket/private/sha1.cc:58-114 | For every state and block, the transform equals section 6.1 of RFC 3174 with its schedule of eighty words. |
| BlockStream.FoldAppend | libwebsocket/private/sha1.cc:142-151 | Folding whole blocks may be stopped at any block and resumed. |
| BlockStream.CountModulo | libwebsocket/private/sha1.cc:137-140 | The two words of the count are the number of bits modulo 2^64. |
| BlockStream.Added | libwebsocket/private/sha1.cc:137-140 | One addition on the two words, carries included, adds the bits of an update; either carry test is right. |
| HashContexts.PaddedWhole | libwebsocket/private/sha1.cc:185-191 | The padded message is a whole number of blocks. |
| HashContexts.Sha1Context.Update | libwebsocket/private/sha1.cc:133-152 | After every update the context is a function of the octets seen, however they were cut. |
| HashContexts.Sha1Context.Pad | libwebsocket/private/sha1.cc:185-190 | The padding loop ends, with exactly the marking octet and the zeros of section 4 of RFC 3174. |
| HashContexts.Sha1Context.Final | libwebsocket/private/sha1.cc:157-199 | The digest spells the state of the padded message folded whole, and the context is wiped. |
| HashContexts.SpellingReads | libwebsocket/private/sha1.cc:192-195 | Spelling a word as four bytes loses nothing. |
| HashContexts.Sha1InPieces | libwebsocket/private/sha1.cc:133-199 | For every message and every split into updates, the digest is that of the message. |
| Sha1Example.AbcPadded | libwebsocket/private/sha1.cc:185-191 | The padding of the message abc, big-endian and little-endian, octet by octet. |
| Sha1Example.DigestOfAbc | libwebsocket/private/sha1.cc:58-114 | The state after the padded message abc is the one that RFC 3174 prints. |
| Sha1Example.HashAbc | libwebsocket/private/sha1.cc:10-12 | The test vector of the source: the object gives the twenty bytes of the digest of abc. |
| HashContexts.Md5Context.Update | https/mymd5.cpp:22-45 | The same of MD5Update(), whatever the compression function. |
| HashContexts.Md5Context.Final | https/mymd5.cpp:47-57 | The digest spells, low octets first, the state of the message padded by sections 3.1 and 3.2 of RFC 1321, folded whole. |
| HashContexts.Encode | https/mymd5.cpp:59-71 | Words are written out one after the other, low octets first. |
| HashContexts.Md5InPieces | https/mymd5.cpp:22-57 | For every message and every split into updates, the digest is that of the message. |
| HttpParser.FindExtends | muduo-vip/muduo/net/Buffer.h:89-94 | More text never moves a line end that was there. |
| HttpParser.ParseResumes | muduo-vip/muduo/net/http/HttpContext.cc:60-118 | Calling again with more text goes on exactly where one call on all of it would be; after failure or completion the text is only left over. |
| HttpParser.TrimCuts | muduo-vip/muduo/net/http/HttpRequest.h:174-188 | Trimming cuts white space off both ends, and all of it. |
| HttpParser.LineReads | muduo-vip/muduo/net/http/HttpContext.cc:16-57 | Every well-formed request line written out is read back: method, path, query and version. |
| HttpParser.LineAccepted | muduo-vip/muduo/net/http/HttpContext.cc:16-57 | A request line is accepted if and only if it is a known method, a space, a target, a space and HTTP/1.0 or HTTP/1.1. |
| HttpParser.FieldReads | muduo-vip/muduo/net/http/HttpRequest.h:174-188 | Every well-formed header field written out is read back, and replaces an earlier one of its name. |
| HttpParser.RequestReads | muduo-vip/muduo/net/http/HttpContext.cc:60-118 | Every well-formed request written out, followed by anything, is read back complete, with that left over. |
| HttpParser.HttpContext.ProcessRequestLine | muduo-vip/muduo/net/http/HttpContext.cc:16-57 | The verdict and the request after a request line, failed or not. |
| HttpParser.HttpContext.AddHeader | muduo-vip/muduo/net/http/HttpRequest.h:174-188 | The two trimming loops compute the trimmed value, and the last value of a field wins. |
| HttpParser.HttpContext.ParseRequest | muduo-vip/muduo/net/http/HttpContext.cc:60-118 | One call makes of the buffer what the whole-text reading makes of it. |
| HttpParser.Receive | muduo-vip/muduo/net/http/HttpContext.cc:60-118 | For every text and every split of its arrival, stopping on failure or once complete: the verdict, the request and what is left over are those of parsing it whole. |
| ByteBuffer.Buffer.MoveToFront | muduo-vip/muduo/net/Buffer.h:456-464 | The overlapping forward copy keeps the readable bytes. |
| ByteBuffer.Buffer.MakeSpace | muduo-vip/muduo/net/Buffer.h:447-466 | Both branches keep the contents and give the room asked for; the assertion on readerIndex_ always holds. |
| ByteBuffer.Buffer.Append | muduo-vip/muduo/net/Buffer.h:191-196 | Contents and room after an append, exactly. |
| ByteBuffer.Buffer.Prepend | muduo-vip/muduo/net/Buffer.h:399-405 | Contents and room after a prepend, exactly. |
| ByteBuffer.Buffer.Retrieve | muduo-vip/muduo/net/Buffer.h:122-133 | Contents and room after a retrieve, exactly, with the reset of an emptied buffer. |
| ByteBuffer.Buffer.RetrieveAsString | muduo-vip/muduo/net/Buffer.h:173-179 | The bytes given out and those left are the bytes there were. |
| ByteBuffer.Buffer.Unwrite | muduo-vip/muduo/net/Buffer.h:224-228 | Contents and room after an unwrite, exactly. |
| ByteBuffer.Buffer.Shrink | muduo-vip/muduo/net/Buffer.h:407-414 | The contents stay and the reserve is there. |
| ByteBuffer.Buffer.ReadFd | muduo-vip/muduo/net/Buffer.cc:28-60 | Whatever readv() delivers, in the buffer and beyond it, is appended in order. |
| ByteBuffer.Run | muduo-vip/muduo/net/Buffer.h:122-466 | Every run of the buffer is that run of a plain sequence and its room. |
| ByteBuffer.RoomFound | muduo-vip/muduo/net/Buffer.h:447-466 | Room is found where it is, or by moving to the front without growing, or by growing just enough, and exactly in these cases. |
| ByteBuffer.CapacityKept | muduo-vip/muduo/net/Buffer.h:122-228 | Prepending, retrieving and unwriting keep the size of the array, and an emptied buffer starts again at its front. |
| ByteBuffer.FirstInFirstOut | muduo-vip/muduo/net/Buffer.h:122-210 | Used as a stream, the buffer gives out what was put in, in order, and holds the rest. |
| PollPoller.AddedKeeps | muduo-vip/muduo/net/poller/PollPoller.cc:79-91 | A new channel keeps the index one to one. |
| PollPoller.ChangedKeeps | muduo-vip/muduo/net/poller/PollPoller.cc:92-109 | So does an update, with the entry ignored exactly when no events are wanted. |
| PollPoller.IgnoredTells | muduo-vip/muduo/net/poller/PollPoller.cc:99-109 | An ignored descriptor is negative, even descriptor zero, and ignoring it again gives it back. |
| PollPoller.RemovedKeeps | muduo-vip/muduo/net/poller/PollPoller.cc:112-140 | So does a removal by swapping with the last entry, and nobody else's entry changes. |
| PollPoller.FirstEventsMatter | muduo-vip/muduo/net/poller/PollPoller.cc:79-91 | A first registration keeps the index sound if and only if its events are not empty. |
| PollPoller.EveryRunWatches | muduo-vip/muduo/net/poller/PollPoller.cc:75-140 | After every run exactly the descriptors registered are watched, each for what was last asked of it. |
| PollPoller.PollPoller.UpdateChannel | muduo-vip/muduo/net/poller/PollPoller.cc:75-110 | The vector, the map and the channel after an update, exactly; the assertions hold. |
| PollPoller.PollPoller.RemoveChannel | muduo-vip/muduo/net/poller/PollPoller.cc:112-140 | The vector, the map and the channels after a removal, exactly; the assertions hold. |
| PollPoller.PollPoller.FillActiveChannels | muduo-vip/muduo/net/poller/PollPoller.cc:55-73 | The scan reports exactly the channels of the entries with events, in order, and has told each of them, though it stops early. |
| PollPoller.EachTold | muduo-vip/muduo/net/poller/PollPoller.cc:55-73 | Each channel has been told the events of its own entry, and one without events nothing. |
| ConnBucket.HeldIffRecent | https/ApiServer.h:189-253 | After every run of pushes, updates and ticks, the ring of n buckets holds an entry if and only if fewer than n ticks have passed since it was last touched. |
| ConnBucket.ReleasedAtNthTick | https/ApiServer.h:189-253 | A connection that falls silent is released at the n-th tick, neither sooner nor later. |
| ConnBucket.ConnBucket.OnTimer | https/ApiServer.h:202-210 | A tick drops the oldest bucket, and what it releases is what was held and no longer is. |
| ConnBucket.ConnBucket.Insert | https/ApiServer.h:212-248 | A push or an update puts a living entry into the newest bucket and does nothing else. |
| Base64.GroupSpelled | libwebsocket/private/base64.cc:24-27 | Four characters spell the same 24 bits as three octets. |
| Base64.AlphabetListed | libwebsocket/private/base64.cc:5-8 | The sixty-four characters are those of table 1 of RFC 4648, in its order. |
| Base64.Examples | libwebsocket/private/base64.cc:14-54 | The examples of section 10 of RFC 4648. |
| Base64.EncodedLength | libwebsocket/private/base64.cc:14-54 | The encoding has four characters for every three octets begun. |
| Base64.RoundTrip | libwebsocket/private/base64.cc:14-95 | Every sequence of octets is read back, although the last group is decoded with characters that are not found. |
| Base64.Encode | libwebsocket/private/base64.cc:14-54 | The loop computes the encoding. |
| Base64.Decode | libwebsocket/private/base64.cc:56-95 | The loop computes the decoding of every text, well formed or not. |

## Left out

- Unmasked client frames, and control frames announced with a 16-bit length: the source sends the former to the control reader and asserts the wrong step for the latter.
- Octets after a Close frame: the loop would go on parsing them, a later call would go to the handshake.
- The opening handshake and its response, TLS, sockets and `TcpConnection`: foreign calls, and the plain-socket send path does not conserve bytes.
- The chaining option of `AES_Cipher`: its two directions chain on different blocks and are not inverse.
- MD5Transform(): any compression function stands for it.
- SHA-1 and MD5 updates of 2^32 - 64 octets and more, whose index arithmetic wraps around.
- The state loop of parseRequest() once a request is complete: the source does not return from it, so no further call is modelled.
- The receive time of a request, logging formats, and the descriptors behind poll, eventfd and timerfd.
- A second call of loop() after the first has returned.
- Calls to runInLoop() from the loop thread, which run at once and never meet the queue.
- The destructor of TimerQueue, which deletes what is still queued.
- Reuse of a channel after its removal, which finds a stale index.
- AesCipher.Cipher.DecryptBlock: the source works in the output bytes themselves; the model copies them to the state and back.
- AesCipher.Cipher.ShiftRows: its rows, those of InvShiftRows, and the columns of the mixing layers are methods of their own.
- Sha1.Transform: the eighty macro calls are rolled into sixteen groups of five, after which the variables have their names again.
- AsyncLogging.LinesConserved: lines of 4000000 characters or more fit no buffer and are dropped by the source; they are not counted as accepted.
- HttpParser.RequestReads: texts with a carriage return inside a name, a value or a target are not among the well-formed requests.
