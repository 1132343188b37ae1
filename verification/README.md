# Verification of xredis-client

A Dafny model of the concurrent core of xredis-client, a pipelined Redis client in C++20, with proofs
of what it promises in every interleaving and on every input. `dafny verify dfyconfig.toml` checks it.

## What is modelled

- `Pipeline`, `PipelineInv`, `PipelineSteps`, `PipelineTheorems`, `PipelineRuns`, `PipelineIo`,
  `PipelineDrains`, `PipelineClose`, `PipelineAnswers`: the request pipeline of one connection as a
  step system. Any number of producers push into the shared ring, a writer sends the payloads with
  short writes, a first-in first-out server answers, a reader pops one handle per reply, and a worker
  drains, resets and reconnects after failures. Each atomic operation, each pair of slot stores and
  each I/O result is one step; an interleaving is a list of actions. The headline is end to end: over
  all connection epochs, the handles resumed are the accepted ones, each once and in order, with the
  reply to their own request or with a connection error; every run can go on until all of them have
  been resumed, with replies while the connection is up; and a closed client stops.
- `WriteBatch`: the loops that move an iovec window after short writes, on the array they rewrite.
- `Ring`: the ring of the build without shared access, a class over its two arrays.
- `RaceJoin`, `AnyJoin`, `AllJoin`: the packed counters of `race`, `any` and `all` for N workers.
- `CancelChain`, `CancelReturns`: `xcoro_hook`, `xcoro_unhook` and `request_cancel` on await chains of any length, tasks
  that have returned while they are being cancelled included.
- `Resp`: RESP2/RESP3 as a one-shot parser and an encoder. `RespFrames`: what the bytes of each kind of
  frame mean to it, and exactly which are malformed. `StreamSpec`: what a call on a connection
  gives, told by asking the one-shot parser again after every read. `RespStream`: the class that
  parses a connection's bytes as they come; each of its methods ends with exactly the outcome, the
  bytes and the unread rest that `StreamSpec` gives. `StreamSteps`, `StreamTheorems`: what follows
  for all cuts of a stream into reads and all lists of calls, for any grammar whose frames lie within
  their bytes and are decided by them; the protocol is one (`StreamTheorems.RespIsLawful`).
  `StreamEnds`: the error codes. `StreamLimits`, `StreamCuts`, `StreamBuffer`: the limit of the buffer, with reads of at most r bytes
  (`sockbuffer_size`) and calls for at most m frames, on streams of any length.
- `Decimal`, `Commands`: decimal text, the digit-count table and the command printer.
- `ShardTable`, `ShardLife`, `Redirect`, `Slots`: cluster routing, that is the probing shard table,
  the life of a shard, MOVED/ASK texts with IPv4 addresses, and CRC-16 hash slots.
- `Common`, `Counting`: helpers.

State machines are deterministic functions `Step(state, action)`; a run is the fold over a list of
actions, so a lemma about all lists is a lemma about all interleavings. Names the system does not
have (`hist`, `winner`, `tooEarly`, `received`, `base`) are history and influence no step.

## Findings

Promises that do not hold of the code as it is. The model keeps the code; each has a lemma that says
exactly when the promise holds.

- `all`: "only cancel once" (header-only/xnet.hpp:1704-1707) holds in all interleavings exactly when at
  most one operation fails, because `need_cancel` survives a failed compare-and-swap
  (`AllJoin.CancelsAtMostOnceIff`, `AllJoin.TwoCancelsHappen`).
- `push_n` tests for one free slot; storing the batch is safe exactly when all of it fits
  (`Ring.NoOverwriteIff`, `Ring.OneFreeSlotIsNotEnough`).
- A push is refused as full not only by a full ring: also when others moved the head past the tail
  it had loaded, however empty the ring is (`PipelineTheorems.RefusedIff`, and a run in
  `PipelineRuns.EmptyRingRefuses`).
- A pipeline closed while it reconnects is deleted undrained; then everybody has been answered exactly
  when nobody was accepted since the reset (`PipelineTheorems.DeletedWhileConnectingIff`, and a run in
  `PipelineRuns.AcceptedNeverAnswered`).
- The limit of the parser's buffer is tested when a read comes while a line is incomplete, so whether
  a stream is refused with EOVERFLOW depends on how it was cut. Every cut gives all its values exactly
  when nowhere within a line of a frame that is complete in the stream the bytes in the buffer and one
  read can reach the limit (`StreamCuts.EveryCutGivesAllIff`, for calls of any kind
  `StreamCuts.AnyCallsGiveAllIff`); `StreamCuts.TwoCutsDiffer` has two cuts that differ. A long bulk is
  never refused (`StreamCuts.BulkIsNeverRefused`).
- The buffer stays below the limit in every call, on every cut, exactly when nowhere within a bulk,
  behind frames that are each below the limit, the bytes in the buffer and one read can reach it
  (`StreamBuffer.BufferStaysBelowIff`).
- `uint32toip` returns one less than the length of the text, so the text that `try_connect` stores
  names its address only for 0.0.0.0, which stands for no address (`Redirect.StoredTextIff`).
- `close` of a shard is lost exactly when it stops the pipeline between publication and start
  (`ShardLife.CloseTakesEffectIff`, and a run in `ShardLife.CloseCanBeLost`).
- A RESP2 null array `*-1` is refused with EINVAL (`Resp.NegativeLengths`).
- `find_shard` answers null exactly when the table is full of other addresses (`ShardTable.NullIff`,
  `ShardTable.LoneLookupNullIff`, `ShardTable.FullTableAnswersNull`, and a run in
  `ShardTable.NullHappens`); `handle_response` dereferences the answer.

## Premises

- A `push_n` batch fits into the free slots when it allocates; for a single push this is proved
  (`PipelineTheorems.SinglePushFits`). No push loads the tail before a reset and swaps it afterwards.
  Ring positions stay below 2^63.
- The server sends one reply per fully received request, in order, and nothing else.
- Every atomic operation is one sequentially consistent step.
- A payload is not empty. A ring's capacity is a power of two, so that `& mask` is `% capacity`.
- `stod_view` yields no other error than EINVAL and ERANGE. Double texts stay opaque.
- The entries of CLUSTER SLOTS name slots below 16384.

A byte is a `char` in the parser and a `bv8` in the checksum. The size of a read and the limit of the
buffer, both build options, are parameters. When the list of socket reads given to the parser ends, a non-blocking call gets EAGAIN; for an awaiting call the same value says
that it is still suspended.

## Model

| member | source | states |
|---|---|---|
| PipelineTheorems.RingHoldsAccepted | include/mpsc_ring.hpp:51-116 | within an epoch head <= committed <= tail <= allocated <= head + capacity, and the slots from head to tail hold the accepted pairs in allocation order |
| PipelineTheorems.SinglePushFits | include/mpsc_ring.hpp:98-121 | the unsigned full test before the swap guarantees a free slot when the swap of a single push succeeds, in every reachable state |
| PipelineTheorems.RefusedIff | include/mpsc_ring.hpp:57-62 | in every reachable state, when a push that loaded its tail in this epoch is refused: it saw STOP, the head has passed that tail, the ring is full, or it is being reset and the tail lies beyond it |
| PipelineTheorems.PushEndsIff | include/mpsc_ring.hpp:51-78 | a push comes back exactly when it is refused by that test or has been committed and signalled; a lost compare-and-swap starts it again |
| PipelineTheorems.PushDuringStopIsRefused | include/mpsc_ring.hpp:56-59 | a push that begins while STOP stands is refused after two steps, which change nothing |
| PipelineAnswers.UndisturbedPushIsAccepted | include/mpsc_ring.hpp:51-65 | a batch that fits, pushed with nobody in between, is accepted with its third step as the next entries of the ring |
| PipelineRuns.EmptyRingRefuses | include/mpsc_ring.hpp:57-62 | a run at whose end an empty ring without STOP refuses a push as full |
| PipelineInv.SeemsFullIff | include/mpsc_ring.hpp:60-62 | the unsigned subtraction test is the comparison head <= tail < head + capacity |
| PipelineInv.SlotIsModulo | include/mpsc_ring.hpp:66-70 | the slot of a position is the position modulo the capacity |
| PipelineInv.SlotsDistinct | include/mpsc_ring.hpp:66-70 | two positions less than a ring apart never share a slot |
| PipelineSteps.SwapInv | include/mpsc_ring.hpp:63-65 | the allocating compare-and-swap keeps the invariant: ranges of producers stay disjoint and cover tail to allocated |
| PipelineSteps.SlotWrite | include/mpsc_ring.hpp:67-71 | filling one slot leaves the entries of all other positions in use alone |
| PipelineSteps.CommitRing | include/mpsc_ring.hpp:72-75 | the commit of a push keeps ring and producers consistent, so that the tail only ever covers positions whose entries are stored |
| PipelineSteps.StepInv | include/RedisClient.hpp:64-193 | every step of a producer, the writer, the reader, the server or the worker keeps the invariant of the pipeline |
| PipelineSteps.RunInv | include/RedisClient.hpp:64-193 | the invariant holds after every interleaving |
| PipelineTheorems.AnsweredInOrder | include/RedisClient.hpp:114-193 | over all epochs the handles resumed are, in order, the first handles accepted, and all of them once an epoch was drained |
| PipelineTheorems.AnsweredExactlyOnce | include/RedisClient.hpp:114-193 | counted with multiplicity, every accepted command is answered at most once at any time and exactly once when its epoch was drained |
| PipelineTheorems.AnswersMatchRequests | include/RedisClient.hpp:114-193 | entry p of an ended epoch was answered with the p-th reply of its connection, or with CONN ERR if it had not been popped |
| PipelineTheorems.CurrentAnswersMatch | include/RedisClient.hpp:114-141 | in the epoch under way the p-th entry delivered got the p-th reply |
| PipelineTheorems.DeletedWhileConnectingIff | include/RedisClient.hpp:165-181 | a pipe deleted while reconnecting left nobody unanswered exactly when nothing was accepted since the reset |
| PipelineRuns.AcceptedNeverAnswered | include/RedisClient.hpp:165-181 | a run in which an entry is accepted while the client reconnects and never answered |
| PipelineTheorems.WireIsRingOrder | include/RedisClient.hpp:76-108 | the socket accepted the payloads in ring order, and only requests received in full were answered |
| PipelineTheorems.BatchIsContiguous | include/mpsc_ring.hpp:51-78 | an accepted batch occupies consecutive positions in argument order and is sent as consecutive bytes |
| PipelineTheorems.StopRefusesPushes | include/mpsc_ring.hpp:185-188 | once STOP is set no step accepts a push until the last store of the reset |
| PipelineTheorems.DrainSeesAllPushes | include/mpsc_ring.hpp:186-197 | when the drain loop runs, every push whose swap succeeded has been committed |
| PipelineTheorems.DrainSpinHasAProducer | include/mpsc_ring.hpp:188-190 | while the drain waits, the producer it waits for exists and can take a step |
| PipelineDrains.EveryoneCanBeAnswered | include/RedisClient.hpp:143-193 | from every reachable state with reader and writer down, unless the pipe was or will be deleted undrained, the run can go on without a new push so that all handles accepted so far have been resumed, in order |
| PipelineDrains.ClosedIsDeleted | include/RedisClient.hpp:165-181 | a pipe that was closed while it reconnects is deleted by the next step of the worker, whatever happens before |
| PipelineClose.ClosedClientStops | include/RedisClient.hpp:150-155 | in every run in which the client was closed before the race of reader and writer ended, whatever comes after: the worker only drains and stops, a finished drain is its end, and from then on nothing at all happens to the pipe |
| PipelineClose.ClosedClientCanStop | include/RedisClient.hpp:150-155 | and from every point of such a run it can get there |
| PipelineClose.OpenClientReconnects | include/RedisClient.hpp:157-170 | in every run in which the client was still open then, a later close included: the worker does not stop before it has reset the ring, and with the next epoch it connects |
| PipelineClose.OpenClientCanConnect | include/RedisClient.hpp:157-170 | and from every point of such a run it can get there |
| PipelineAnswers.EveryoneCanGetAReply | include/RedisClient.hpp:64-141 | while the connection is up every run can go on, without a new push, so that everybody accepted in the epoch has been resumed with the reply to the own request |
| PipelineTheorems.NoLostWakeup | header-only/xredis-client.hpp:1035-1054 | a waiting writer with committed unsent entries always has a positive counter, a write under way or a producer about to signal, across reconnects too |
| PipelineSteps.PrepareSend | include/mpsc_ring.hpp:153-167 | the iovecs prepared from the slots are the payloads of the next committed entries of the log |
| PipelineIo.WriterClaims | include/RedisClient.hpp:77-82 | a woken writer claims the next committed entries, at most 64, and waits exactly when there are none; what it then has to send are their bytes |
| PipelineIo.AnyPartIsSent | include/RedisClient.hpp:86-107 | whatever part of it the socket accepts, the next bytes in ring order are out, and the writer prepares again exactly when all are |
| PipelineIo.ErrorEndsWriter | include/RedisClient.hpp:71-89 | an error ends the writer wherever it waits for the kernel, with the rest unsent |
| PipelineIo.DownSendsNothing | include/RedisClient.hpp:71-89 | a writer that has ended sends nothing more on its connection, in any run |
| PipelineIo.FirstReplyIsDelivered | include/RedisClient.hpp:114-124 | the first reply is read alone and resumes the oldest handle, then the reader tries for more |
| PipelineIo.TryIsDelivered | include/RedisClient.hpp:126-138 | a try takes the replies that are there, at most 64, resumes one handle for each, and ends the reader if it failed, else the reader parses again |
| PipelineIo.CounterIsUnread | include/RedisClient.hpp:71-76 | the event counter is the number of signals performed since it was last read or cleared |
| PipelineSteps.ServedIsCommitted | include/RedisClient.hpp:114-124 | a request received in full had been committed, so the reader never pops an unsent entry |
| WriteBatch.JoinAdvance | include/RedisClient.hpp:95-106 | advancing past k accepted bytes leaves exactly the other bytes |
| WriteBatch.TotalLenIsJoin | include/mpsc_ring.hpp:159-166 | the sum of the remaining lengths is the number of bytes left |
| WriteBatch.ShortenFirst | include/RedisClient.hpp:102-103 | the entry reached is shortened in place and the rest untouched |
| WriteBatch.MoveWindow | include/RedisClient.hpp:95-106 | the inner loop stays inside the batch, terminates and leaves the buffers advanced by the bytes accepted |
| WriteBatch.MoveOn | include/RedisClient.hpp:90-106 | exactly the bytes after the accepted ones remain, and the remaining lengths sum up to their number |
| WriteBatch.SendBatch | include/RedisClient.hpp:83-107 | for every sequence of short writes and errors the bytes accepted are the first bytes of the batch, as many as the results say, all of them exactly when the loop ends normally; the first decisive result decides (ProgressIff) |
| WriteBatch.ProgressIff | include/RedisClient.hpp:85-94 | the batch fails exactly with the error of the first call that returns one, or with ECONNRESET (104) at the first that accepts nothing; it is sent with the call that accepts its last bytes |
| Ring.NoOverwriteIff | include/mpsc_ring.hpp:80-96 | storing n more entries overwrites no live or new one exactly when they fit |
| Ring.OneFreeSlotIsNotEnough | include/mpsc_ring.hpp:84-94 | a ring on which a batch of two with one slot free takes the place of the oldest live entry |
| Ring.MPSCRing.PushN | include/mpsc_ring.hpp:80-96 | -2 after a stop, -1 when full, otherwise a batch that fits is appended in order, and one that does not replaces the oldest live entry |
| Ring.MPSCRing.Store | include/mpsc_ring.hpp:89-93 | the store loop fills the slots of its positions and leaves the others within a ring alone |
| Ring.MPSCRing.Push | include/mpsc_ring.hpp:132-144 | -2 after a stop, -1 when full, otherwise the pair is appended |
| Ring.MPSCRing.Pop | include/mpsc_ring.hpp:146-151 | the oldest live pair leaves the ring |
| Ring.MPSCRing.PrepWritev | include/mpsc_ring.hpp:170-183 | claims the oldest unsent payloads, at most as many as asked, and returns their total length |
| Ring.MPSCRing.Drain | include/mpsc_ring.hpp:200-209 | every live entry is resumed with a connection error in order, and the ring is stopped |
| Ring.MPSCRing.Reset | include/mpsc_ring.hpp:220-224 | the ring is empty and not stopped |
| Ring.MPSCRing.constructor | include/mpsc_ring.hpp:229-231 | a new ring is empty |
| RaceJoin.RunInv | header-only/xnet.hpp:1858-1892 | the packed counter is twice the finished workers less one when published; the right to resume exists once, from completion on |
| RaceJoin.RaceResumesAfterCompletion | header-only/xnet.hpp:1858-1892 | for N workers in any interleaving: at most one resume, after all have counted themselves and the winner's result and index are written; one winner |
| RaceJoin.RaceResumesExactlyOnce | header-only/xnet.hpp:1858-1892 | when all workers have ended the waiter was resumed exactly once |
| RaceJoin.RaceCancelsIff | header-only/xnet.hpp:1877-1891 | a winner that has ended has cancelled the others exactly when another worker had not counted itself at the step that published the result; otherwise nobody has |
| RaceJoin.RaceIsWaitFree | header-only/xnet.hpp:1858-1892 | every worker has ended after five steps of its own, whatever the others do, and when all have made them the waiter was resumed once |
| AnyJoin.RunInv | header-only/xnet.hpp:1893-1941 | the same packing with sign for "no success yet" is kept by every step, spurious swap failures included |
| AnyJoin.AnyResumesAfterCompletion | header-only/xnet.hpp:1893-1941 | at most one resume, after all have counted themselves; then the winner succeeded and its result is in place, or all failed and nothing was written |
| AnyJoin.AnyResumesExactlyOnce | header-only/xnet.hpp:1893-1941 | when all workers have ended the waiter was resumed exactly once |
| AnyJoin.AnyCancelsIff | header-only/xnet.hpp:1893-1941 | a winner that has ended has cancelled the others exactly when another worker had not counted itself at the step that published the result |
| AnyJoin.AnyCanFinish | header-only/xnet.hpp:1893-1941 | every run can go on until all workers have ended, each within six steps on its own, and the waiter was resumed |
| AllJoin.AllCountsAndResumes | header-only/xnet.hpp:1668-1711 | the absolute value of the counter is the number finished, it is negative exactly when one of them failed; one resume, after all results are stored |
| AllJoin.TwoCancelsHappen | header-only/xnet.hpp:1678-1707 | for any two failing workers a run in which both cancel |
| AllJoin.CancelsAtMostOnceIff | header-only/xnet.hpp:1704-1707 | at most one cancellation in all interleavings exactly when at most one operation fails |
| AllJoin.AllCancelsIff | header-only/xnet.hpp:1678-1707 | a worker that has ended has cancelled the others exactly when its operation failed and at one of its reads of the counter no failure had been counted |
| AllJoin.SomeFailureIsCancelledFor | header-only/xnet.hpp:1678-1707 | when all have ended, somebody cancelled exactly when some operation failed |
| AllJoin.AllCanFinish | header-only/xnet.hpp:1668-1711 | every run can go on until all workers have ended, each within five steps on its own, and the waiter was resumed |
| CancelChain.RunInv | header-only/xnet.hpp:486-570 | the hook bits, the lock and the cancel bits stay consistent in every run on chains that grow, also by tasks cancelled before they are awaited, and shrink, also by tasks that are being cancelled |
| CancelChain.HookIsAllOrNothing | header-only/xnet.hpp:486-544 | a failed hook leaves no hooked bit behind, a successful one has hooked the whole chain |
| CancelChain.HookStopsOnlyAtCancelledNode | header-only/xnet.hpp:486-499 | a hook gets past a node exactly when its cancel bit is not set |
| CancelChain.CancelNeverMissesAHook | header-only/xnet.hpp:546-570 | a cancel racing with a hook makes it fail or calls its cancel handle, unless it failed or was unhooked first, even when the task returns meanwhile |
| CancelChain.NoHookAfterCancel | header-only/xnet.hpp:546-570 | once a task's cancel bit is set it stays set and no later hook through the task succeeds |
| CancelChain.RequestSetsBit | header-only/xnet.hpp:546-570 | when a request_cancel on any task comes back, the cancel bit of that task is set, in the chain or returned meanwhile |
| CancelChain.NoHookAfterRequest | header-only/xnet.hpp:486-570 | after a request_cancel on a task has come back, every hook round that begins while the task is in the chain fails |
| CancelChain.FirstHookIff | header-only/xnet.hpp:504-512 | the first hook of a root succeeds exactly when the root has not been cancelled |
| CancelReturns.UndisturbedHookIff | header-only/xnet.hpp:486-536 | a hook that nobody disturbs suspends the task exactly when no task of the chain is cancelled |
| CancelReturns.CallsAreRequested | header-only/xnet.hpp:554-562 | in every run the cancel handles called are, call by call, those of the rounds in which a request set the bit of a hooked task: no later operation is cancelled by mistake |
| CancelReturns.HookedIsCancelled | header-only/xnet.hpp:552-566 | a request that sets the bit of a hooked task has, when it comes back, called the cancel handle of that very hook round, unless the round failed or was unhooked |
| CancelReturns.UnhookedFails | header-only/xnet.hpp:486-499 | a request that sets the bit of a task that a hook under way has not reached makes that hook fail |
| CancelReturns.RequestCanReturn | header-only/xnet.hpp:546-570 | from every reachable state a request_cancel can come back with nothing new beginning: whoever has the lock gives it back |
| CancelReturns.HookCanReturn | header-only/xnet.hpp:486-544 | from every reachable state a hook can come to its end, and the task can unhook |
| CancelChain.CancelledBeforeAwait | header-only/xnet.hpp:1096-1110 | while a task that was cancelled before it was awaited is in the chain, no hook succeeds and the running task never suspends |
| Decimal.StollOfText | src/RedisParser.cpp:85-97 | every 64-bit integer is read back from its decimal text |
| Decimal.StollIff | src/RedisParser.cpp:85-97 | a text is read as a number exactly when all of it is one of 64 bits; ERANGE (34) exactly for a text that begins with a longer one, EINVAL (22) for all others |
| Resp.ParseStable | src/RedisParser.cpp:112-331 | a frame that was read, or found malformed, stays so when more bytes arrive |
| Resp.ParseLocal | src/RedisParser.cpp:112-331 | a frame that ends within some bytes is read from those bytes alone |
| Resp.RoundTripReads | src/RedisParser.cpp:112-331 | wherever the encoding of a value of any of the 15 kinds stands, the parser reads that value and stops exactly behind it |
| Resp.RoundTrip | src/RedisParser.cpp:112-331 | encoding followed by any bytes parses to the value and consumes the encoding |
| Resp.StreamRoundTrip | src/RedisParser.cpp:383-400 | of any number of encoded values in a row the first n frames read are the first n values |
| Resp.NegativeLengths | src/RedisParser.cpp:145-162 | of all negative lengths and counts only -1 of a bulk string is accepted, as null |
| RespFrames.BadLines | src/RedisParser.cpp:5-18 | no newline: incomplete; a newline after no carriage return: error -1; a line of nothing else: error -3 |
| RespFrames.LineFrames | src/RedisParser.cpp:120-143 | the value or error of a frame of one line, byte by byte: any text for strings, errors and big numbers, numbers and booleans only theirs, -3 for an unknown prefix |
| RespFrames.BadCounts | src/RedisParser.cpp:145-164 | a length or count that is no number, out of range or negative makes the frame malformed, but for the -1 of a bulk string |
| RespFrames.BulkFrames | src/RedisParser.cpp:36-63 | a bulk is its bytes when CRLF follows, error -2 when other bytes do, EOVERFLOW (75) from the limit on, and incomplete before its end |
| RespFrames.AggregateFrames | src/RedisParser.cpp:157-176 | an aggregate holds as many frames in a row as its count says, key before value, and the first of them that cannot be read decides its error |
| RespFrames.MalformedIff | src/RedisParser.cpp:112-331 | exactly which bytes are malformed, with exactly which error, for frames of every kind |
| Resp.LongestIsUnique | src/RedisParser.cpp:383-400 | the bytes hold one maximal list of frames |
| StreamSteps.FindResumes | src/RedisParser.cpp:6-18 | resuming the newline search at the old size misses nothing |
| StreamSpec.PullThen | src/RedisParser.cpp:112-331 | reading for a part of a frame and then for the rest is, read by read, asking again for the frame from its start |
| StreamTheorems.NeverAgain | src/RedisParser.cpp:387-391 | no malformed frame is reported as EAGAIN, so the rewind is taken only for missing bytes |
| StreamTheorems.RespIsLawful | src/RedisParser.cpp:112-331 | the protocol is a grammar for which the theorems about streams hold |
| StreamTheorems.TakeStream | src/RedisParser.cpp:19-32 | a read loses no byte of the stream and makes none up, except one that does not fit |
| StreamTheorems.TranscriptReadsStream | src/RedisParser.cpp:383-400 | for every cut into reads and every list of calls the values given are those the one-shot parser reads from the start of the stream; a session that ends early ends with its verdict on the next frame, or with a line incomplete there and a read that reaches the limit |
| StreamTheorems.CutsDoNotMatter | src/RedisParser.cpp:383-400 | two sockets that deliver the same bytes in different pieces, asked by different calls: one gives the first values of the other, the same when neither can go on, with the same error |
| StreamTheorems.FailedGaveAll | src/RedisParser.cpp:75-83 | a session that failed, but for the size of a read, has given every value of the stream |
| StreamLimits.SessionGives | src/RedisParser.cpp:383-400 | a session of calls for at most m frames on reads of at most r bytes that fails has given the first n frames, if nowhere in their lines a read may not fit |
| StreamLimits.FailedHasAll | src/RedisParser.cpp:383-400 | when any m frames in a row and one read are within the limit, a session that fails has given all frames of its stream, of whatever length |
| StreamCuts.EveryCutGivesAllIff | src/RedisParser.cpp:28-32 | with reads of at most r bytes and calls for at most m frames, every cut gives all values of a stream exactly when nowhere in a line of a complete frame a read may not fit |
| StreamCuts.AnyCallsGiveAllIff | src/RedisParser.cpp:28-32 | the same for all calls: exactly when no beginning of the stream that ends within a line of a complete frame reaches the limit with one read more |
| StreamCuts.AnySizeGivesAllIff | src/RedisParser.cpp:28-32 | with reads of any size: exactly when the stream is shorter than the limit or has no first frame |
| StreamCuts.BulkIsNeverRefused | src/RedisParser.cpp:36-63 | a bulk below the limit is delivered on every cut when its first line and one read are within the limit |
| StreamCuts.TwoCutsDiffer | src/RedisParser.cpp:28-61 | one stream, delivered when cut within its bulk, with more bytes in the buffer than the limit, and refused in one piece |
| StreamBuffer.BufferStaysBelowIff | src/RedisParser.cpp:28-61 | in every call of every session on every cut the buffer stays below the limit, exactly when nowhere within a bulk, behind frames below the limit, a read can bring it there |
| StreamTheorems.SessionProgress | src/RedisParser.cpp:75-83 | all calls are made up to the first that fails; an awaiting call that does not fail gives one value, a batch at most as many as asked |
| StreamEnds.CodesSayWhy | src/RedisParser.cpp:19-32 | on every cut the code of a session is 0, the error of the malformed frame behind its values, the error the socket ended with (104 when closed), or 75 for a line that did not fit |
| StreamLimits.AwaitingDelivers | src/RedisParser.cpp:75-83 | on a stream of any length n awaiting calls give its first n frames, whatever the cut, when each of them and one read are within the limit |
| StreamLimits.AwaitingDeliversShort | src/RedisParser.cpp:75-83 | on a stream below the limit they do for reads of any size |
| StreamLimits.EncodedStreamIsDelivered | src/RedisParser.cpp:75-83 | a socket that delivers encoded values in any pieces, a stream of any length: the values given are those in order, and all of them by a session that fails or by one awaiting call each, when any m encodings in a row and one read are within the limit |
| RespStream.RedisParser.Receive | src/RedisParser.cpp:19-25 | the next thing the socket delivers; only a call that waits passes over EAGAIN |
| RespStream.RedisParser.Fill | src/RedisParser.cpp:19-32 | exactly the bytes read are appended, a line keeps the buffer below the limit, an error changes nothing else |
| RespStream.RedisParser.FindLine | src/RedisParser.cpp:6-33 | reads until the newline is there, or gives the reason why it is not |
| RespStream.RedisParser.TakeLine | src/RedisParser.cpp:8-17 | the line found is the line of the one-shot parser |
| RespStream.RedisParser.ReadLine | src/RedisParser.cpp:5-34 | the next line of the stream or the reason why there is none, after exactly the reads it takes; the buffer it fills stays below the limit |
| RespStream.RedisParser.ReadBulk | src/RedisParser.cpp:36-63 | the next bulk of the stream or the reason why there is none, after exactly the reads it takes; the buffer grows at most to the end of the bulk and one read |
| RespStream.RedisParser.ParseRecursion | src/RedisParser.cpp:412-631 | awaiting or not, and however the recursion stopped and went on: value, error, bytes received and reads left are those of asking the one-shot parser again after every read |
| RespStream.RedisParser.ParseBulkFrame | src/RedisParser.cpp:145-160 | bulk strings, bulk errors and verbatim strings; -1 is null for bulk strings only |
| RespStream.RedisParser.ParseAggregate | src/RedisParser.cpp:157-176 | arrays, sets, pushes, maps and attributes with their count line |
| RespStream.RedisParser.ParseItems | src/RedisParser.cpp:165-172 | the element loop reads the run of frames of the one-shot parser |
| RespStream.RedisParser.ParseEntries | src/RedisParser.cpp:242-250 | the entry loop of maps and attributes, key before value |
| RespStream.RedisParser.ParsePaired | src/RedisParser.cpp:254-285 | a map, or an attribute with the value behind its entries |
| RespStream.RedisParser.Consume | src/RedisParser.cpp:65-68 | the used bytes are erased |
| RespStream.RedisParser.Reset | src/RedisParser.cpp:70-73 | the parser is as new |
| RespStream.RedisParser.ParseOne | src/RedisParser.cpp:75-83 | an awaited parse gives the frame where the buffer starts and erases it, or the reason why there is none |
| RespStream.RedisParser.TryParseN | src/RedisParser.cpp:383-400 | the frames up to n or to the first incomplete one, whose bytes stay; an error comes with the frames before it |
| RespStream.Drive | src/RedisParser.cpp:75-83 | any mix of both calls gives call by call what the session of the specification gives |
| RespStream.DriveTwo | src/RedisParser.cpp:75-83 | two connections with the same bytes cut differently and asked differently: each gives what its session says, one gives the first values of the other, and both all of them once they have failed, when the frames fit |
| Commands.CountDigitsIsExact | header-only/xredis-client.hpp:842-877 | the table gives the exact number of decimal digits of every 64-bit number |
| Commands.CommandUnpack | header-only/xredis-client.hpp:879-886 | one argument is appended as a bulk string |
| Commands.CommandSize | header-only/xredis-client.hpp:925-938 | the size computed in advance is the length of the header and all arguments |
| Commands.BuildCommands | header-only/xredis-client.hpp:923-950 | the text is the RESP array of the arguments and exactly as long as the space reserved |
| Commands.BuildFromRange | header-only/xredis-client.hpp:952-998 | the text is the RESP array of the name, the key if any and the range |
| Commands.CommandsReadBack | header-only/xredis-client.hpp:923-950 | the parser reads any concatenation of printed commands back as the argument lists |
| ShardTable.ProbeIsModulo | include/RedisCluster.hpp:443-444 | the probe sequence is (start + i) modulo the table size |
| ShardTable.FillKeepsOrder | include/RedisCluster.hpp:453-456 | a shard put into the first empty cell of its probe sequence keeps every shard reachable |
| ShardTable.RunInv | include/RedisCluster.hpp:441-465 | the table stays in order and every answer stays justified in all interleavings of lookups |
| ShardTable.OneCellPerAddress | include/RedisCluster.hpp:441-465 | no address ever occupies two cells |
| ShardTable.SameAnswers | include/RedisCluster.hpp:441-465 | all answers for an address that are not null are the same shard, which is in the table |
| ShardTable.NullIff | include/RedisCluster.hpp:441-465 | in all interleavings an answer is null exactly when every cell is taken by another address |
| ShardTable.FullTableAnswersNull | include/RedisCluster.hpp:441-465 | once the table is full of other addresses every answer is null, whoever else looks for whatever |
| ShardTable.LoneLookupNullIff | include/RedisCluster.hpp:441-465 | a lookup alone ends, and answers null exactly when the table it starts on is full of other addresses |
| ShardTable.LookupIsWaitFree | include/RedisCluster.hpp:441-465 | a lookup has answered after two steps for each cell and one more, whatever the others do |
| ShardTable.ShardsAreDistinct | include/RedisCluster.hpp:453-461 | in all interleavings no two cells hold the same shard object |
| ShardTable.NullHappens | include/RedisCluster.hpp:441-465 | a run on a table of one cell that ends with null |
| ShardTable.ProbeMeetsShard | include/RedisCluster.hpp:443-451 | probing from its hash meets a shard before any empty cell and any other cell of its address |
| ShardTable.Search | include/RedisCluster.hpp:292-299 | the first shard of an address among those collected, or none |
| ShardTable.Collect | include/RedisCluster.hpp:271-307 | one shard for each address listed and no other, and every slot points at the shard of the last entry that covers it |
| ShardTable.Fill | include/RedisCluster.hpp:309-323 | the first fill fails exactly when there are more shards than cells, stores nothing but the shards, and leaves the order lookups rely on |
| ShardLife.RunInv | include/RedisCluster.hpp:24-54 | flag, pipeline and its life stay consistent for any number of callers and closers |
| ShardLife.StateNeverDecreases | include/RedisCluster.hpp:24-54 | the state of a shard never decreases |
| ShardLife.OnePipeline | include/RedisCluster.hpp:352-388 | at most one pipeline is made; every answer is that pipeline, or null and the shard is dead |
| ShardLife.PublishedStays | include/RedisCluster.hpp:352-388 | the published pipeline never changes |
| ShardLife.DeadIff | include/RedisCluster.hpp:133-139 | a shard is dead exactly when the schedule has a close of it |
| ShardLife.ClosedEarlyStaysDead | include/RedisCluster.hpp:352-388 | closed before its pipeline was published it publishes nothing ever after, no pipeline lives, and every answer is null |
| ShardLife.CallReturns | include/RedisCluster.hpp:352-388 | a call that nobody disturbs returns within four steps unless somebody else connects: null exactly when the shard is dead and the call has not got past that, else the pipeline, published and started |
| ShardLife.CloseTakesEffectIff | include/RedisCluster.hpp:133-139 | after a close the pipeline lives on exactly when the schedule has the closer stop it between its publication and its start |
| ShardLife.CloseCanBeLost | include/RedisCluster.hpp:357-377 | a run in which a close between publication and start is lost |
| Redirect.IpToUint32 | src/RedisConnection.cpp:331-348 | the loop computes the address its text stands for, or 0 |
| Redirect.IpOfIff | src/RedisConnection.cpp:331-348 | a text stands for a number other than 0 exactly when it is its dotted address: four numbers below 256 with dots between |
| Redirect.Uint32ToIp | src/RedisConnection.cpp:350-368 | the buffer holds the dotted text, the length returned is one less than that of the text, and the bytes below it are the text that is stored |
| Redirect.IpRoundTrip | src/RedisConnection.cpp:331-368 | every 32-bit address is read back from its dotted text |
| Redirect.StoredTextIff | include/RedisCluster.hpp:359-361 | the text stored for a pipeline names its address only for 0.0.0.0 |
| Redirect.ParseTarget | include/RedisCluster.hpp:408-438 | slot, address and port of a redirection, or the error of a malformed one, in the order of the checks |
| Redirect.ParseError | include/RedisCluster.hpp:394-439 | on the bytes of the text: 2 exactly when it begins with neither word; 0 and 1 exactly for MOVED and ASK with an address and numbers in range, which are returned; EPROTO (71) exactly without an address other than 0.0.0.0 between its separators; EINVAL (22) for the rest |
| Redirect.RedirectRoundTrip | include/RedisCluster.hpp:394-439 | every MOVED and ASK text is understood exactly, for every 64-bit slot, every 16-bit port and every address but 0.0.0.0, which is refused |
| Slots.Shift1IsTextbook | src/RedisConnection.cpp:384-417 | the bit step of the reference checksum is the textbook one |
| Slots.LookupIsShift8 | src/RedisConnection.cpp:384-417 | each of the 256 table entries is eight bit steps of its index |
| Slots.ByTableIsShift8 | src/RedisConnection.cpp:421-423 | one table step is eight bit steps, for every state and byte |
| Slots.Crc16 | src/RedisConnection.cpp:419-425 | the table-driven checksum is the bit-by-bit CRC-16/XMODEM of the whole string |
| Slots.CheckValue | src/RedisConnection.cpp:384-425 | the check value of CRC-16/XMODEM: 0x31c3 for the text 123456789 |
| Slots.CheckSlot | src/RedisConnection.cpp:370-382 | that text has the slot 12739 |
| Slots.GetSlot | src/RedisConnection.cpp:370-382 | 16384 divides the checksum of the hash tag, or of the whole key without one, less the slot, which is below 16384 |
| Slots.EqualTagsEqualSlots | src/RedisConnection.cpp:370-382 | keys with equal hash tags have equal slots |
| Slots.SlotIsUnique | src/RedisConnection.cpp:370-382 | every key has exactly one slot |

## Left out

- io_uring, sockets, timers, eventfd, TLS and the HELLO handshake: their results are actions or inputs.
- Weak memory ordering, coroutine frames and the lifetime of awaiters after they are resumed.
- The two stores and the two loads of one slot, each taken as one step.
- Overflow of ring positions at 2^63, and the truncation of `pivot` to int at src/RedisParser.cpp:385 for buffers of 2^31 bytes.
- Calls on a parser after one that failed: its callers drop the connection and reset it.
- `try_parse` (src/RedisParser.cpp:402-410): the same recursion as `try_parse_n` for one frame.
- `reserve(count)` for announced counts; it has no effect on results.
- Floating-point text: which texts are doubles is a parameter of the parser.
- The command wrappers, the subscriber, option structs and `allSettled`, which only adds easy members.
- The thread-unsafe build of cancellation and of `Shard`.
- The cluster's `handle_response` and its batch loop: the pipeline follows the single-server reader.
- Taking the reply to CLUSTER SLOTS apart: `connect` starts from its list of slot ranges.
- The constants of `Router::hash`: any function into the table.
- `RedisValue` storage and its debug dump: a datatype.
