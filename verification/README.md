# A verified model of the web server

The server is an epoll loop that accepts connections, hands their events to a pool of worker threads, parses
requests, and sends responses from a buffer and a mapped file; a timer closes idle connections, a pool lends
database connections, and a log writes asynchronously. This project models its stateful parts in Dafny and proves
what they promise, one module per source file:

| file | module | what it is |
|---|---|---|
| timer_spec.dfy | TimerSpec | the timer as a map from ids to deadlines, and what one pass of firing may do |
| timer.dfy | TimerHeap | the indexed binary heap that refines that map |
| counting.dfy | Counting | counting threads by where they stand |
| thread_pool.dfy | ThreadPoolProtocol | the worker pool and its draining shutdown |
| block_queue.dfy | BlockQueueProtocol | the bounded blocking queue |
| sql_conn_pool.dfy | SqlConnPoolProtocol | the semaphore-guarded connection pool |
| buffer.dfy | ByteBuffer | the growable byte queue |
| http_form.dfy | HttpForm | form decoding, and the encoding it undoes |
| http_request.dfy | HttpParser | the line-driven request parser |
| http_response.dfy | HttpResponder | the response builder and its framing |
| http_conn.dfy | HttpConnection | scatter read, request to response, gather write, and the workers' handlers |
| http_session.dfy | HttpSession | one use of a socket over several requests |
| server.dfy | ServerProtocol | the life of connections, over the timer heap |
| server_pool.dfy | ServerPool | the server's tasks as those of the worker pool |
| whole_server.dfy | WholeServer | both together with what every connection reads and sends |
| log.dfy | LogProtocol | the asynchronous log, and the blocking queue inside it |

`dafny verify dfyconfig.toml` checks everything.

## How it is modelled

Objects are classes with the source's fields, and each method is proved against a function or predicate on values;
the theorems are about those. A buffer's storage is an array, copied, compacted and replaced in place.

Threads are modelled as steps. What a thread does while it holds a mutex is one action, since no other thread can
look in between; a notification given after the mutex is released is an action of its own. A module has a state with
every thread's place (asleep, woken, contending, ...), the notifications still due and history sequences; `Enabled`
and `Apply` define one action, `ValidRun` and `After` a run of them in any interleaving, with spurious wake-ups.
The class at the end of such a module holds the source's fields; each of its methods equals one action, or the part of
one that is done under the mutex.

What the outside decides is a parameter, over its whole documented range: clock samples, accepted descriptors, event
batches, how many bytes one `readv` or `writev` takes, `errno`, what `stat`, `open` and `mmap` say about a path, and
the answers of the user database.

## Where the model departs from the text

The code is unfinished in places. Each repair below is the smallest one that gives the evident intention; where it
says so, a lemma gives the exact condition under which the text as it stands behaves as intended.

- Timer. The heap starts empty instead of with 64 default nodes (timer.cc:5; `PrefilledHeapIsIndexedIffEmpty`).
  `_siftup` stops at the root (timer.cc:94; `SiftUpAsWrittenIff`, and for `add` of a new id `AddAsWrittenIff`).
  `_delete` sifts only if the slot still exists (timer.cc:84; `DeleteAsWrittenIff`); as written no timer whose
  callback has run can be removed (`PopAsWrittenFails`). `add` on a known id sifts (timer.cc:31;
  `OverwriteAsWrittenIffFits`). The clamp in `getNextTick` takes effect (timer.cc:57; `NextTickAsWrittenIffFresh`).
  `adjustExpire` is kept as it is: `Timer.AdjustExpire` says exactly when it keeps the heap, and
  `HandledIsOpenAndTimed` that the server only uses it so.
- Blocking queue. `front` and emptying replace `top` and `clear`. The module has both texts, `AsWritten` and
  `TestedFirst` (closed flag tested before each wait): the wake-up properties are proved for both while the queue is
  open, FIFO order always, and the closing properties for the second. For the first, `AsWrittenNobodySleepsIff` says,
  for consumers from their notification in `close` on and for producers from theirs, in which runs nobody sleeps:
  exactly those without a pop from an empty, or a push to a full, queue; a pop between the two notifications already
  sleeps for good (`AsWrittenPopBetweenNotifications`). `AsWrittenStaysAsleep`, `AsWrittenProducerStaysAsleep` and
  `AsWrittenAbandonsIff` say what happens otherwise. `clear` and a timeout that reports late are kept out of the runs,
  with the exact conditions under which they are harmless (`ClearKeepsInvIff`, `LateTimeoutKeepsInvIff`) and inputs
  (`ClearStrandsAProducer`, `LateTimeoutStrandsAnItem`).
- Buffer. `retrieveAll` zeroes the bytes and resets both positions (buffer.cc:58).
- Connection. `init` also empties the two entries, which the text leaves as the last user of the slot did
  (http_conn.cc:14-25); `PointEntries` sets both whatever they held, before anything is written. The first window of a
  scatter read is the writable part (http_conn.cc:139); `Scatter` is proved for every window that fits. `_iov_count`
  is assigned 1 or 2 (http_conn.cc:97; `IovCountAsWrittenFitsIff`), and the second entry is emptied when there is no
  file (http_conn.cc:100). The level-triggered loop is kept: it may stop with up to 10240 bytes left and the server
  then closes, exactly in the cases `WriteAndDecide` lists; any level-triggered response of two bytes or more can be
  cut short (`SendsAllIff`, `CutShort`).
- Parser. The last line is consumed exactly, with or without CRLF (http_request.cc:62-65). As the text stands, an
  accepted request is never consumed, and after one without a body the next on the connection is rejected
  (`AsWrittenNeverConsumesAll`, `AsWrittenAgreesIff`, `AsWrittenAgreesOnPrintedIff`,
  `AsWrittenRejectsTheNextRequest`). The test for a trailing `&`, which never holds, is kept
  (`TrailingAmpersandHarmlessIff`, `TrailingAmpersandOnFormHarmlessIff`).
- Server. `_extendTime` has no body (server.h:57); it is taken to be `adjustExpire` with the connection's descriptor
  and the timeout. It then needs a positive timeout (`ExtendTimeFailsIffNoTimeout`). Nothing in the code keeps a
  timeout from hitting a connection that a worker has; runs are assumed free of that (`Calm`), and
  `FireKeepsInvIffNotBusy` shows that this is exactly what is needed (an input: `BusyTimeoutBreaksOwnership`).
- Log. With the queue's text as it stands, the destructor's `join` hangs unless the drain thread is in its wait or
  just coming out of it (`AsWrittenDrainEndsIffWaiting`, `AsWrittenJoinHangs`).

Kept as found, and worth knowing:

- The code 400 for a rejected request is overwritten before it is sent (`BadRequestIsNeverReported`).
- A rejected request that asks to be kept alive is answered with `Connection: close`, and the connection is kept
  (`KeptAgainstAnnouncementIff`, `KeptAgainstAnnouncementOnPrintedIff`, `MalformedIsKeptAgainstAnnouncement`).
- The text that failed is still in the buffer then, and is answered as a request of its own: one request, two answers
  (`FailureLeavesText`, `AnsweredAgainIff`, `PrintedIsAnsweredOnceIff`, `RejectedBodyIsServed`).
- Every read is parsed from the beginning, so a request that arrives in two reads is answered after the first
  (`SplitIsHarmlessIff`).
- The parser ignores Content-Length, so what follows a request other than POST in the same read is lost
  (`TextAfterHeadIsSwallowed`).
- A peer that ends its stream after a request is not answered in edge-triggered mode (`HttpConn.OnRead`).

## Model

| member | source | states |
|---|---|---|
| TimerSpec.DueWithinAMillisecond | src/timer/timer.cc:66 | truncation to milliseconds makes a timer due exactly when less than 1 ms is left |
| TimerSpec.ToMsCountsMilliseconds | src/timer/timer.cc:56 | a duration lies between its count of milliseconds and one more, on either side of zero |
| TimerSpec.TickFiresEachOnce | src/timer/timer.cc:63-72 | in one pass no timer fires twice, only existing ones fire, all others stay as they were |
| TimerSpec.TickFiresInOrder | src/timer/timer.cc:63-72 | timers fire in non-decreasing order of their deadlines |
| TimerSpec.TickFiresExactlyTheDue | src/timer/timer.cc:63-72 | for a clock that does not go back: all with less than 1 ms left at the first sample fire, none with 1 ms or more left at the last |
| TimerSpec.NextTickMinusOneIffEmpty | src/timer/timer.cc:46-60 | the event loop is told to wait for ever exactly when no timer is left |
| TimerSpec.NextTickIsTimeLeft | src/timer/timer.cc:52-60 | the answer is the whole milliseconds left to the earliest deadline, and none if it has passed |
| TimerSpec.NextTickAsWrittenIffFresh | src/timer/timer.cc:54-57 | as written the answer is right exactly when the second sample is less than 1 ms past the deadline; 1 to 2 ms past it reads as "no timer" |
| TimerHeap.RootIsEarliest | src/timer/timer.cc:65 | heap order puts the earliest of all deadlines at the front |
| TimerHeap.OverwriteAsWrittenIffFits | src/timer/timer.cc:31-33 | `add` on a known id as written keeps heap order exactly when the deadline fits between parent and children |
| TimerHeap.SiftUpAsWrittenIff | src/timer/timer.cc:90-103 | with order above the slot, the loop as written with size_t arithmetic ends as meant exactly below the root and with a root strictly earlier than the node; else it reads outside the vector |
| TimerHeap.AddAsWrittenIff | src/timer/timer.cc:23-28 | `add` of a new id as written is safe exactly for a non-empty heap whose root is strictly earlier |
| TimerHeap.DeleteAsWrittenIff | src/timer/timer.cc:79-87 | removal as written is safe exactly for a slot strictly between root and last, with a last node strictly later than the root |
| TimerHeap.PopAsWrittenFails | src/timer/timer.cc:74-77 | as written no timer can be popped, from any heap |
| TimerHeap.EarlierTimerFailsAsWritten | src/timer/timer.cc:90-103 | an input: a timer due before the only one there |
| TimerHeap.PrefilledHeapIsIndexedIffEmpty | src/timer/timer.cc:5 | default nodes without index entries break the index, for any number but zero |
| TimerHeap.Timer.constructor | src/timer/timer.cc:5 | a new timer has no entries |
| TimerHeap.Timer.Swap | src/timer/timer.cc:122-129 | exchanging two slots keeps the index the exact inverse of the ids, and no entry changes |
| TimerHeap.Timer.SiftUp | src/timer/timer.cc:90-103 | a node out of order with its neighbours is moved up until only slot i may be late for its children; entries do not change |
| TimerHeap.Timer.SiftDown | src/timer/timer.cc:105-120 | restores heap order below a late node; does nothing if the node is before its children |
| TimerHeap.Timer.Delete | src/timer/timer.cc:79-87 | removal from any slot removes one entry and keeps heap and index |
| TimerHeap.Timer.Add | src/timer/timer.cc:19-34 | insert or overwrite of one map entry, all others untouched |
| TimerHeap.Timer.AdjustExpire | src/timer/timer.cc:11-16 | changes one deadline; the heap stays sound if and only if the new deadline is not before the parent's |
| TimerHeap.Timer.DoWork | src/timer/timer.cc:36-43 | runs the entry's callback once and removes the entry; an unknown id changes nothing |
| TimerHeap.Timer.Tick | src/timer/timer.cc:63-72 | the heap's pass is a pass of the map: earliest first, each callback run, the rest not due |
| TimerHeap.Timer.GetNextTick | src/timer/timer.cc:52-60 | after the pass: -1 without timers, else the whole milliseconds left to the earliest deadline of all, never negative |
| ThreadPoolProtocol.StepKeepsInv | src/pool/thread_pool.hpp:31-49 | every action keeps: no lost wake-up, FIFO, taken tasks running or finished, nobody exits early or sleeps after the last notification |
| ThreadPoolProtocol.EveryRunIsSafe | src/pool/thread_pool.hpp:31-77 | in every interleaving a sleeping worker means each queued entry has a woken worker or a due notification; the tasks the run submits are taken in that order and none is lost |
| ThreadPoolProtocol.NoTaskRunsTwice | src/pool/thread_pool.hpp:41-46 | a task submitted once is on one worker at most, and not queued or finished meanwhile |
| ThreadPoolProtocol.QueuedWorkIsPickedUp | src/pool/thread_pool.hpp:34-48 | with work queued some worker can move, or a notification that wakes one is due |
| ThreadPoolProtocol.OpenPoolServesAll | src/pool/thread_pool.hpp:31-77 | from any point of any run, work without new submissions comes to rest within a bound, and then every task submitted so far has run exactly once |
| ThreadPoolProtocol.NothingIsRefused | src/pool/thread_pool.hpp:67-77 | an open pool takes any number of tasks, in order, and owes one notification for each |
| ThreadPoolProtocol.SpuriousWakeIsHarmless | src/pool/thread_pool.hpp:34-48 | a worker that wakes with nothing queued goes back to sleep and has changed nothing |
| ThreadPoolProtocol.DestructorRuns | src/pool/thread_pool.hpp:57-65 | the destructor can always run, and leaves the queue as it is |
| ThreadPoolProtocol.ShutdownStepFalls | src/pool/thread_pool.hpp:34-49 | after the destructor's notification nobody sleeps again and every step lowers a measure |
| ThreadPoolProtocol.ShutdownIsBounded | src/pool/thread_pool.hpp:34-49 | so every continuation is bounded by that measure |
| ThreadPoolProtocol.ShutdownNeverSticks | src/pool/thread_pool.hpp:34-49 | each worker that has not exited can take a step |
| ThreadPoolProtocol.ShutdownDrains | src/pool/thread_pool.hpp:34-65 | when all workers have exited every submitted task has run exactly once |
| ThreadPoolProtocol.ShutdownCompletes | src/pool/thread_pool.hpp:26-65 | any run past the notification that cannot go on has all workers gone and every task run exactly once |
| ThreadPoolProtocol.ThreadPool.constructor | src/pool/thread_pool.hpp:26-53 | an open pool with all workers about to take the mutex |
| ThreadPoolProtocol.ThreadPool.AddTask | src/pool/thread_pool.hpp:68-75 | queues at the back and leaves one notification due |
| ThreadPoolProtocol.ThreadPool.NotifyOne | src/pool/thread_pool.hpp:76 | wakes some sleeper if there is one, never nobody while somebody sleeps |
| ThreadPoolProtocol.ThreadPool.WorkerTurn | src/pool/thread_pool.hpp:34-48 | takes the oldest entry, else leaves if closed, else sleeps |
| ThreadPoolProtocol.ThreadPool.TaskReturns | src/pool/thread_pool.hpp:45-46 | the worker goes back for the mutex with its work recorded as finished |
| ThreadPoolProtocol.ThreadPool.SetClosed | src/pool/thread_pool.hpp:57-62 | first half of the destructor |
| ThreadPoolProtocol.ThreadPool.NotifyAll | src/pool/thread_pool.hpp:63 | wakes every sleeper and nobody else |
| BlockQueueProtocol.StepKeepsInv | src/log/block_queue.hpp:82-176 | every action keeps FIFO, capacity and both wake-up counts; after a repaired close nobody sleeps |
| BlockQueueProtocol.OpenQueueIsSafe | src/log/block_queue.hpp:94-123 | while open, in either text and any interleaving: pushed is popped plus queued, bounded, no lost wake-up for consumers or producers |
| BlockQueueProtocol.EveryRunIsFifo | src/log/block_queue.hpp:94-176 | order and bound hold in every run, closed or not, in either text |
| BlockQueueProtocol.PushMeans | src/log/block_queue.hpp:95-108 | in either text: when a push adds its item at the end and wakes a consumer, when it waits with its item, when it fails |
| BlockQueueProtocol.PopMeans | src/log/block_queue.hpp:111-123 | in either text: when a pop hands out the oldest item and wakes a producer, when it waits, when it fails |
| BlockQueueProtocol.OpenQueueServesEveryCall | src/log/block_queue.hpp:94-176 | in every open run each item offered is pushed once or its producer waits with it; each pop called has handed out one item, timed out, or waits |
| BlockQueueProtocol.TimedCallEnds | src/log/block_queue.hpp:160-167 | a waiting popTimeout can always end without an item |
| BlockQueueProtocol.CloseRuns | src/log/block_queue.hpp:82-92 | close can always run to its end, releases everybody and takes nothing out |
| BlockQueueProtocol.CloseReleasesEveryone | src/log/block_queue.hpp:82-118 | flag tested first: after close nobody is asleep, no call can sleep, and pop fails only when all was handed out |
| BlockQueueProtocol.ClosedQueueDrains | src/log/block_queue.hpp:110-123 | a consumer of a closed queue gets every queued item in order without waiting |
| BlockQueueProtocol.AsWrittenSleepsAfterClose | src/log/block_queue.hpp:113-118 | a reachable state in which pop after close sleeps |
| BlockQueueProtocol.AsWrittenStaysAsleep | src/log/block_queue.hpp:113-118 | only a push, a flush or a spurious wake-up that picks that consumer gets it out |
| BlockQueueProtocol.AsWrittenProducerStaysAsleep | src/log/block_queue.hpp:99-104 | a producer asleep on a full queue after close gets out only by a pop or a spurious wake-up that picks it |
| BlockQueueProtocol.AsWrittenSleepsIff | src/log/block_queue.hpp:82-118 | once close has released a side and none of it sleeps, a step puts one to sleep exactly if it calls pop on an empty, or push on a full, queue |
| BlockQueueProtocol.AsWrittenStaysAwakeIff | src/log/block_queue.hpp:82-118 | over whole runs: nobody of a released side sleeps at any point exactly if no call meets its wait |
| BlockQueueProtocol.AsWrittenNobodySleepsIff | src/log/block_queue.hpp:82-118 | the same from the notification in close on, whoever slept before it |
| BlockQueueProtocol.AsWrittenPopBetweenNotifications | src/log/block_queue.hpp:90-91 | an input: a pop between the two notifications sleeps, though nobody calls anything after close |
| BlockQueueProtocol.AsWrittenAbandonsIff | src/log/block_queue.hpp:111-123 | after close a pop on a queue with items hands one out exactly if it is a new call; one that comes out of a wait leaves them |
| BlockQueueProtocol.ClearKeepsInvIff | src/log/block_queue.hpp:137-141 | emptying without notifying strands producers unless none sleeps or enough are awake to fill the queue |
| BlockQueueProtocol.LateTimeoutKeepsInvIff | src/log/block_queue.hpp:160-170 | a notified popTimeout that reports a timeout loses the notification, exactly when others sleep and no woken consumer is to spare |
| BlockQueueProtocol.LateTimeoutStrandsAnItem | src/log/block_queue.hpp:160-170 | an input: two consumers wait, one item arrives, the one notified times out |
| BlockQueueProtocol.ClearStrandsAProducer | src/log/block_queue.hpp:137-141 | an input: a full queue is cleared under a waiting producer |
| BlockQueueProtocol.BlockQueue.constructor | src/log/block_queue.hpp:71-75 | an open empty queue of positive capacity |
| BlockQueueProtocol.BlockQueue.NotifyConsumer | src/log/block_queue.hpp:155-158 | one sleeping consumer, if any, is woken; also what flush does |
| BlockQueueProtocol.BlockQueue.NotifyProducer | src/log/block_queue.hpp:121 | one sleeping producer, if any, is woken |
| BlockQueueProtocol.BlockQueue.PushCall | src/log/block_queue.hpp:95-108 | a call with its item, up to its return or wait: queued at the back with a consumer notified, refused, or asleep |
| BlockQueueProtocol.BlockQueue.PushResume | src/log/block_queue.hpp:99-108 | the same call after a wait |
| BlockQueueProtocol.BlockQueue.PopCall | src/log/block_queue.hpp:111-123 | a call of pop or popTimeout, up to its return or wait; what it hands out is the oldest item |
| BlockQueueProtocol.BlockQueue.PopResume | src/log/block_queue.hpp:113-123 | the same call after a wait |
| BlockQueueProtocol.BlockQueue.PushAttempt | src/log/block_queue.hpp:95-108 | what both have in common, for the item the thread brought |
| BlockQueueProtocol.BlockQueue.PopAttempt | src/log/block_queue.hpp:111-123 | from the mutex to return or wait: hands out the oldest item and notifies, refuses, or sleeps |
| BlockQueueProtocol.BlockQueue.SetClosed | src/log/block_queue.hpp:85-88 | the locked part of close |
| BlockQueueProtocol.BlockQueue.NotifyConsumers | src/log/block_queue.hpp:90 | no consumer is left asleep |
| BlockQueueProtocol.BlockQueue.NotifyProducers | src/log/block_queue.hpp:91 | no producer is left asleep |
| SqlConnPoolProtocol.PopFindsAConnection | src/pool/sql_conn_pool.cc:52-62 | a thread past the semaphore never meets an empty queue |
| SqlConnPoolProtocol.StepKeepsInv | src/pool/sql_conn_pool.cc:45-71 | every action keeps: semaphore plus units in flight equals idle connections; idle plus lent are the original ones |
| SqlConnPoolProtocol.EveryRunIsSafe | src/pool/sql_conn_pool.cc:45-71 | in every interleaving after initialisation no pop meets an empty queue and no connection is lost or invented |
| SqlConnPoolProtocol.NeverLentTwice | src/pool/sql_conn_pool.cc:57-70 | distinct connections: a lent one is original, not idle, and with no other session |
| SqlConnPoolProtocol.GetAndFreeGoRound | src/pool/sql_conn_pool.cc:45-71 | a session alone gets the oldest idle connection, and giving it back restores the pool but for the order |
| SqlConnPoolProtocol.WaitersAreReleased | src/pool/sql_conn_pool.cc:52-70 | while one session blocks on the semaphore another can take a step towards posting it |
| SqlConnPoolProtocol.CheckDoesNotPreventBlocking | src/pool/sql_conn_pool.cc:48-52 | the unguarded emptiness test does not keep a caller from blocking: a run where it does |
| SqlConnPoolProtocol.SqlConnPool.constructor | src/pool/sql_conn_pool.cc:12-33 | all connections idle, the semaphore at their number |
| SqlConnPoolProtocol.SqlConnPool.IsEmptyTest | src/pool/sql_conn_pool.cc:48-51 | goes on exactly if the queue is not empty at that moment |
| SqlConnPoolProtocol.SqlConnPool.SemWait | src/pool/sql_conn_pool.cc:52-56 | takes one unit |
| SqlConnPoolProtocol.SqlConnPool.Pop | src/pool/sql_conn_pool.cc:57-63 | lends the front connection, which is always there |
| SqlConnPoolProtocol.SqlConnPool.Push | src/pool/sql_conn_pool.cc:66-69 | the lent connection goes to the back |
| SqlConnPoolProtocol.SqlConnPool.Post | src/pool/sql_conn_pool.cc:70 | gives one unit back |
| ByteBuffer.Buffer.constructor | src/buffer/buffer.cc:16-17 | an empty buffer of the given size |
| ByteBuffer.Buffer.FillTail | src/http/http_conn.cc:142-144 | bytes arriving in the writable tail do not disturb what is readable |
| ByteBuffer.Buffer.HasWritten | src/buffer/buffer.cc:43-45 | bytes in the tail become readable, at the end |
| ByteBuffer.Buffer.Retrieve | src/buffer/buffer.cc:47-50 | removes exactly the oldest bytes |
| ByteBuffer.Buffer.RetrieveUntil | src/buffer/buffer.cc:52-55 | removes up to a position inside the readable part |
| ByteBuffer.Buffer.RetrieveAll | src/buffer/buffer.cc:57-59 | removes everything, resets both positions, zeroes the storage |
| ByteBuffer.Buffer.RetrieveAllToString | src/buffer/buffer.cc:60-64 | returns everything readable, then empties |
| ByteBuffer.Buffer.Append | src/buffer/buffer.cc:66-75 | adds at the end through growth or compaction; storage stays within the larger of the initial size and twice the high-water mark |
| ByteBuffer.Buffer.EnsureWritable | src/buffer/buffer.cc:77-82 | makes the room asked for in at most one round, content unchanged |
| ByteBuffer.Buffer.ExtendSpace | src/buffer/buffer.cc:97-107 | grows exactly when tail and front together are too small, and then less than the request has been consumed; else compacts |
| ByteBuffer.Buffer.Resize | src/buffer/buffer.cc:99 | larger storage with the old bytes in place |
| ByteBuffer.Buffer.StorageIsBounded | src/buffer/buffer.cc:77-107 | storage never exceeds the initial size or twice the most bytes ever readable and requested together |
| ByteBuffer.Buffer.MoveToFront | src/buffer/buffer.cc:102 | the overlapping copy moves the readable bytes to the front intact |
| HttpForm.ScanUndoesEncode | src/http/http_request.cc:188-229 | decoding undoes encoding: every non-empty list of plain pairs comes back as its last-wins map |
| HttpForm.LastPairWins | src/http/http_request.cc:210-214 | of pairs with one key the last decides |
| HttpForm.OtherKeysKept | src/http/http_request.cc:210-214 | keys that no pair names are not touched |
| HttpForm.PlusToSpace | src/http/http_request.cc:193-198 | decoding in place keeps the length and changes only `+` |
| HttpForm.TrailingAmpersandStoresEmpty | src/http/http_request.cc:222-227 | a trailing `&` replaces the last key's value by the empty string |
| HttpForm.TrailingAmpersandHarmlessIff | src/http/http_request.cc:222-227 | so it is ignored, as meant, exactly after a body that is empty or ends in `=` or `&` |
| HttpForm.TrailingAmpersandOnFormHarmlessIff | src/http/http_request.cc:222-227 | for an encoded form: exactly if its last value is empty |
| HttpParser.LineEnd | src/http/http_request.cc:39 | the first CRLF, or the end of the text |
| HttpParser.RequestLineMatchIff | src/http/http_request.cc:87-100 | the first pattern matches exactly "method path HTTP/version" with space-free parts, and gives those parts |
| HttpParser.HeaderMatchIff | src/http/http_request.cc:109-117 | the second pattern matches exactly a colon-free name, a colon, at most one space dropped, and a value without CR or LF |
| HttpParser.NormalizePathOnce | src/http/http_request.cc:140-150 | normalising a path twice is normalising it once |
| HttpParser.PageOfPath | src/http/http_request.cc:11-14 | a printed request leads to /index.html for / and /index, to its own .html page for the five other names, and elsewhere to its path as it came |
| HttpParser.ParserNeverMovesBack | src/http/http_request.cc:37-66 | the parser never goes back through its states |
| HttpParser.SuccessUsesTheText | src/http/http_request.cc:37-69 | success means the text is used up, or the request is finished |
| HttpParser.FailureLeavesText | src/http/http_request.cc:37-66 | a text that is not accepted is never used up |
| HttpParser.ParsePrintedHead | src/http/http_request.cc:37-66 | the head of a printed message is parsed and consumed exactly, leaving the body alone |
| HttpParser.ParseUndoesPrint | src/http/http_request.cc:31-70 | parsing undoes printing for every printable message: method, path normalised once, version, last-wins headers, body outcome, exact consumption |
| HttpParser.TextAfterHeadIsSwallowed | src/http/http_request.cc:121-126 | what follows the head of a request other than POST, however long, is consumed with it and changes nothing |
| HttpParser.ParseUndoesPrintWithoutForm | src/http/http_request.cc:121-131 | other methods, and POST without body, are accepted as they stand |
| HttpParser.ParseUndoesPrintOfForm | src/http/http_request.cc:121-186 | any posted form on any page: accepted exactly with the form content type and, to register, if the database takes the last name and password; then used up, with decoded body, last-wins map and the page it leads to |
| HttpParser.PrintedIsRejectedIff | src/http/http_request.cc:121-186 | a printed request is rejected exactly if it posts a body that is no form or a registration that fails; then, and only then, its body is left in the buffer |
| HttpParser.KeepsAliveIff | src/http/http_request.cc:76-84 | a request is kept exactly for version 1.1 with keep-alive as the value of its last Connection header |
| HttpParser.NotKeptWithoutHeader | src/http/http_request.cc:76-79 | without a Connection header it is not kept |
| HttpParser.IsFormIff | src/http/http_request.cc:154-161 | a body is a form exactly if the last Content-Type header names the form encoding |
| HttpParser.NoFormWithoutHeader | src/http/http_request.cc:155-158 | without that header it is none |
| HttpParser.BadRequestLineIsRejected | src/http/http_request.cc:87-100 | a first line that is no request line is rejected and stays, whatever follows |
| HttpParser.PostUsesOneLine | src/http/http_request.cc:37-66 | an accepted post uses one line of its body; what follows stays in the buffer |
| HttpParser.PrintedMessage | src/http/http_request.cc:31-70 | a printed message, letter by letter |
| HttpParser.MalformedIsRejected | src/http/http_request.cc:102-119 | a line without a colon among the headers is rejected and left, with the headers before it taken |
| HttpParser.ParseBeginning | src/http/http_request.cc:37-66 | the request line and some headers leave the parser in an accepted request without the others |
| HttpParser.ParseUndoesPrintOfLogin | src/http/http_request.cc:171-184 | a login with any fields leads to the welcome page exactly if its last name is not empty and the database knows it with the last password, else to the error page |
| HttpParser.ParseUndoesPrintOfRegistration | src/http/http_request.cc:173-178 | a registration with any fields is accepted exactly if the database registers its last name and password |
| HttpParser.LoginLeadsTo | src/http/http_request.cc:153-186 | a browser's login with name and password leads to /welcome.html exactly if the name is not empty and the database knows the pair, else to /error.html |
| HttpParser.RegistrationLeadsTo | src/http/http_request.cc:153-186 | a browser's registration is accepted exactly if the database registers the pair, and stays on /register.html |
| HttpParser.ParsedPath | src/http/http_request.cc:121-186 | the page a printed message leads to, accepted or not, with its headers and version |
| HttpParser.AsWrittenNeverConsumesAll | src/http/http_request.cc:62-65 | as written no request is both accepted and consumed |
| HttpParser.AsWrittenAgreesIff | src/http/http_request.cc:62-65 | as written the result is the intended one exactly when the intended parse fails or leaves bytes |
| HttpParser.AsWrittenAgreesOnPrintedIff | src/http/http_request.cc:62-65 | for a printed request: exactly if its body is no form, or its registration fails |
| HttpParser.AsWrittenRejectsTheNextRequest | src/http/http_request.cc:62-65 | as written every accepted request without body makes the next one on its connection fail |
| HttpParser.HttpRequest.constructor | src/http/http_request.cc:20-22 | a blank request |
| HttpParser.HttpRequest.Init | src/http/http_request.cc:24-29 | nothing of an earlier request remains |
| HttpParser.HttpRequest.Parse | src/http/http_request.cc:31-70 | the loop over the buffer computes the parse of its text and leaves exactly the rest in it; empty input is refused |
| HttpParser.HttpRequest.ParseNext | src/http/http_request.cc:37-66 | one line is parsed, and consumed with its CRLF unless it fails |
| HttpParser.HttpRequest.DispatchLine | src/http/http_request.cc:42-61 | each state treats the line its way |
| HttpParser.HttpRequest.SearchCrlf | src/http/http_request.cc:39 | the search finds the first CRLF of the readable part |
| HttpParser.HttpRequest.ParseRequestLine | src/http/http_request.cc:87-100 | fields set on a match only |
| HttpParser.HttpRequest.ParsePath | src/http/http_request.cc:140-150 | default pages get their file names |
| HttpParser.HttpRequest.ParseHeaders | src/http/http_request.cc:102-119 | stores a header, ends the head at an empty line, or fails |
| HttpParser.HttpRequest.ParseBody | src/http/http_request.cc:121-138 | skips, or posts and finishes, or fails |
| HttpParser.HttpRequest.ParsePost | src/http/http_request.cc:153-186 | content type, decoding, then login or registration |
| HttpParser.HttpRequest.ParseEncodedUrl | src/http/http_request.cc:188-229 | the in-place loop equals one scan of the original body |
| HttpResponder.DecimalReadsBack | src/http/http_response.cc:92 | a printed number reads back as itself |
| HttpResponder.SplitUndoesJoin | src/http/http_response.cc:87-128 | a receiver that splits at the first empty line gets the header lines and the content |
| HttpResponder.FileType | src/http/http_response.cc:138-150 | the type is a single line for any path |
| HttpResponder.FileTypeOfExtension | src/http/http_response.cc:138-150 | the type goes by what follows the last dot, and is plain text without a dot or for an unknown extension |
| HttpResponder.ReplyIsFramed | src/http/http_response.cc:64-128 | whatever the file system answers, the content has exactly the length the last header line announces (section 8.6 of RFC 9110) |
| HttpResponder.ReplyIsRead | src/http/http_response.cc:64-128 | a receiver that goes by the length line finds lines, content, and what follows, whatever follows |
| HttpResponder.StreamIsRead | src/http/http_response.cc:64-128 | responses sent one after another are told apart, each with its lines and content |
| HttpResponder.BadRequestIsNeverReported | src/http/http_response.cc:64-71 | 400 is never sent; 200 exactly for a world-readable file |
| HttpResponder.ReplySays | src/http/http_response.cc:64-104 | status line for 200, 403 and 404 by what stat said, the connection lines asked for, type line and length line |
| HttpResponder.ReplyDelivers | src/http/http_response.cc:64-136 | the file of the path, or of the error page, goes out whenever it has bytes, opens and maps; in every other case no file does, but a generated page |
| HttpResponder.ErrorPageSays | src/http/http_response.cc:152-166 | the generated page names code, error page and message |
| HttpResponder.HttpResponse.Init | src/http/http_response.cc:54-62 | a new response with no file mapped |
| HttpResponder.HttpResponse.Stat | src/http/http_response.cc:65 | the size remembered is that of the file at the path |
| HttpResponder.HttpResponse.MakeResponse | src/http/http_response.cc:64-76 | the buffer gains exactly the head of the framed reply, and the file is mapped if it is to be sent |
| HttpResponder.HttpResponse.AddPieces | src/http/http_response.cc:73-75 | the three appends together are the joined header lines, the empty line and the page |
| HttpResponder.HttpResponse.AddStateLine | src/http/http_response.cc:87-93 | a known code and its line |
| HttpResponder.HttpResponse.AddHeader | src/http/http_response.cc:95-104 | connection and type lines |
| HttpResponder.HttpResponse.AddContent | src/http/http_response.cc:106-128 | maps the file exactly when it can be opened and mapped, else writes an error page; the length fits either way |
| HttpResponder.HttpResponse.ErrorHtml | src/http/http_response.cc:130-136 | an error code turns the path to its page, and the size to that page's |
| HttpResponder.HttpResponse.ErrorContent | src/http/http_response.cc:152-166 | an error page after its own length |
| HttpConnection.WritevResult | src/http/http_conn.cc:53 | an error, or between one byte and all |
| HttpConnection.EveryResultIsPossible | src/http/http_conn.cc:53 | no result of the kernel within its range is left out |
| HttpConnection.WriteLoopStops | src/http/http_conn.cc:50-77 | the loop stops with bytes left and no error only level-triggered and below its threshold; without a kernel error everything else is sent |
| HttpConnection.SendsAllIff | src/http/http_conn.cc:50-77 | without a kernel error the whole response is sent, however it is split, exactly edge-triggered or below two bytes |
| HttpConnection.ByteByByteStopsAtThreshold | src/http/http_conn.cc:75 | level-triggered, byte by byte, the loop stops at 10240 bytes left and not before |
| HttpConnection.CutShort | src/http/http_conn.cc:75 | an input: 20000 bytes level-triggered, of which the first call takes 15000 |
| HttpConnection.IovCountAsWrittenFitsIff | src/http/http_conn.cc:97-103 | the counter as written stays within two entries only for one response, or two without a file |
| HttpConnection.HttpConn.EntriesPointToUnsent | src/http/http_conn.cc:94-104 | the memory the two entries point to holds exactly the bytes not yet sent |
| HttpConnection.HttpConn.constructor | src/http/http_conn.cc:8 | a closed connection with nothing to send |
| HttpConnection.HttpConn.InitConn | src/http/http_conn.cc:14-25 | open, counted once more, nothing left of an earlier user |
| HttpConnection.HttpConn.DropBuffers | src/http/http_conn.cc:19-20 | both buffers are emptied, and with them what was left to send |
| HttpConnection.HttpConn.Close | src/http/http_conn.cc:27-36 | closing twice counts once |
| HttpConnection.HttpConn.ReadToBuf | src/http/http_conn.cc:134-157 | all bytes of one readv arrive in order, however they split between tail and overflow |
| HttpConnection.HttpConn.Scatter | src/http/http_conn.cc:139-155 | the same for any first window inside the storage |
| HttpConnection.HttpConn.Read | src/http/http_conn.cc:38-48 | the buffer gains a prefix of what waits; all of it in edge-triggered mode |
| HttpConnection.HttpConn.Process | src/http/http_conn.cc:79-107 | nothing read, nothing made; else exactly the answer to the text is added to what is to be sent |
| HttpConnection.HttpConn.PointEntries | src/http/http_conn.cc:94-104 | both entries cover the write buffer and the file, whatever they held |
| HttpConnection.HttpConn.Advance | src/http/http_conn.cc:62-74 | the bytes taken are the oldest unsent ones, across both entries and the buffer |
| HttpConnection.HttpConn.MoveEntries | src/http/http_conn.cc:62-74 | the same on entries and buffer positions |
| HttpConnection.HttpConn.Write | src/http/http_conn.cc:50-77 | for any sequence of partial writes, sent plus unsent is conserved and the loop ends |
| HttpConnection.HttpConn.WriteAndDecide | src/server/server.cc:264-283 | going on only after the whole response; waiting exactly for EAGAIN; closing without error with bytes left exactly level-triggered at or below 10240 |
| HttpConnection.HttpConn.OnWrite | src/server/server.cc:264-283 | the handler on buffers and entries is the one on values, for any split of the writes |
| HttpConnection.WriteHandledMeans | src/server/server.cc:264-283 | exactly when it re-arms for reading or writing or closes; what was sent is a prefix of the response, and the next answer is queued only after all of it |
| HttpConnection.HttpConn.OnRead | src/server/server.cc:251-262 | closes exactly when the last read is final or an error; else what was read so far is answered, all of it in edge-triggered mode |
| HttpConnection.HttpConn.OnProcess | src/server/server.cc:285-292 | armed for writing exactly when there is an answer to send |
| HttpConnection.FileIsDelivered | src/http/http_response.cc:64-128 | a receiver of a 200 whose file has bytes, opens and maps finds that content; otherwise no file goes out |
| HttpConnection.PrintedRequestIsAnswered | src/http/http_conn.cc:79-107 | from printed request of any method to received answer: status, content of the file it leads to, and announced keep-alive |
| HttpConnection.LoginIsAnswered | src/http/http_conn.cc:79-107 | a login that the database knows receives the content of the welcome page, any other that of the error page |
| HttpConnection.KeptAgainstAnnouncementIff | src/server/server.cc:268-275 | for any text, announcement and treatment of the connection agree exactly if it is accepted or does not ask to be kept alive |
| HttpConnection.KeptAgainstAnnouncementOnPrintedIff | src/server/server.cc:268-275 | for a printed request: exactly if it posts neither a bad body nor a failing registration, or does not ask |
| HttpConnection.MalformedIsKeptAgainstAnnouncement | src/server/server.cc:268-275 | an input: a line of nonsense after a keep-alive header |
| HttpSession.AnsweredAgainIff | src/server/server.cc:264-292 | an answered text is answered again exactly if it leaves bytes and asks to be kept alive; the second answer is to those bytes |
| HttpSession.PrintedIsAnsweredOnceIff | src/server/server.cc:264-292 | a printed request gets one answer exactly if it is not rejected or does not ask; else its body gets another |
| HttpSession.RejectedBodyIsServed | src/server/server.cc:264-292 | an input: the body of a rejected POST is answered with the page it names |
| HttpSession.LoneRequestLine | src/http/http_request.cc:37-69 | a request line alone, without CRLF, is an accepted request |
| HttpSession.PrintedIsKeptIff | src/server/server.cc:264-283 | for a printed request with a last Connection header: announced as kept, and read from again, exactly for keep-alive in version 1.1; else announced as closing, and closed |
| HttpSession.PrintedIsClosedWithoutHeader | src/server/server.cc:264-283 | without that header: announced as closing, and closed |
| HttpSession.AnsweredOnceIff | src/server/server.cc:251-292 | every byte read is answered once or still waits exactly if no answered text left bytes behind |
| HttpSession.SplitIsHarmlessIff | src/http/http_conn.cc:79-83 | a request cut between header lines into two reads is answered as in one exactly if neither part of its head nor all of it asks to be kept alive |
| ServerProtocol.StepKeepsInv | src/server/server.cc:58-138 | every action keeps: one owner per open connection, right count, timers at last activity plus timeout, no failed assertion |
| ServerProtocol.EveryRunIsSafe | src/server/server.cc:58-292 | the same for every run with a positive timeout in which no timeout hits a busy connection |
| ServerProtocol.WorkersOwnAlone | src/server/server.cc:251-292 | two workers never have one connection; a worker's connection is open and not armed, held or queued |
| ServerProtocol.BatchIsDealtWith | src/server/server.cc:62-92 | no event of an armed connection is withheld: a batch becomes one task for each event asked for, in order, and closes exactly the connections that hung up |
| ServerProtocol.HandledIsOpenAndTimed | src/server/server.cc:128-138 | the assertion of adjustExpire holds for each event, and the deadline moves later |
| ServerProtocol.NoConnectionTimesOutEarly | src/server/server.cc:97-107 | a timeout closes an open connection only after its idle time, less 1 ms; a stale entry cannot |
| ServerProtocol.DeadlineIsLastActivityPlusTimeout | src/server/server.cc:97-138 | in every run an open connection's timer stands at the time of its last accept, read or write event, by the clock of the run, plus the timeout |
| ServerProtocol.DueIffIdle | src/server/server.cc:97-138 | so it is due exactly when the connection has been idle for more than the timeout less 1 ms |
| ServerProtocol.AcceptedIffRoom | src/server/server.cc:118-124 | the next descriptor becomes a connection exactly below 65536 of them |
| ServerProtocol.FireKeepsInvIffNotBusy | src/server/server.cc:244-249 | a timeout is harmless exactly when the connection is not queued or running |
| ServerProtocol.BusyTimeoutBreaksOwnership | src/server/server.cc:244-249 | an input: the timeout comes while a worker reads, and the worker is left with a closed connection |
| ServerProtocol.ExtendTimeFailsIffNoTimeout | src/server/server.h:57 | the first event fails the assertion exactly without a positive timeout |
| ServerProtocol.TickIsARun | src/timer/timer.cc:63-72 | a pass of the timer heap is a run of the server protocol that closes exactly the fired connections |
| ServerProtocol.TickKeepsInv | src/server/server.cc:59-61 | a pass closes exactly the fired connections, and keeps the server's invariant if none of them is queued or running |
| ServerProtocol.Server.constructor | src/server/server.cc:210-234 | a server without connections, with the trigger modes the number stands for |
| ServerProtocol.Server.DealListen | src/server/server.cc:109-126 | accepts in order; stops only with none left, at the limit, or level-triggered after one; each is opened, counted, timed and armed, and the one that meets the limit is turned away |
| ServerProtocol.Server.AcceptNext | src/server/server.cc:118-124 | one of them, below the limit |
| ServerProtocol.Server.ReadClock | src/timer/timer.cc:14-26 | time goes on between the handlers, and nothing else changes |
| ServerProtocol.Server.AddClient | src/server/server.cc:97-107 | open, counted, timed and armed for reading |
| ServerProtocol.Server.CloseConnection | src/server/server.cc:244-249 | out of epoll, and uncounted if it was open |
| ServerProtocol.Server.DealEvent | src/server/server.cc:63-90 | hang-up closes; read and write events move the deadline and queue one task |
| ServerProtocol.Server.StartTask | src/pool/thread_pool.hpp:41-45 | a worker takes the oldest queued entry |
| ServerProtocol.Server.FinishTask | src/server/server.cc:251-292 | a handler's last access re-arms its connection or closes it; which of them, `WholeServer` decides |
| ServerProtocol.Server.TaskReturns | src/pool/thread_pool.hpp:45-46 | a handler that has let its connection go returns, while others may have it already |
| ServerProtocol.Server.WaitEvents | src/server/server.cc:62 | a batch of events of armed connections, each of which is thereby disarmed |
| ServerProtocol.Server.OnTick | src/server/server.cc:59-61 | the real heap fires what is due and its callbacks close those connections; the invariant stays if none of those fired was busy |
| ServerPool.PoolStepIsServerStep | src/pool/thread_pool.hpp:31-77 | every step of the open pool is a step of the server or none: queued tasks, and room for each among the workers, agree |
| ServerPool.OtherServerStepsKeepTheLink | src/server/server.cc:58-138 | all other steps of the server leave the pool alone |
| ServerPool.QueuedEventsAreTakenUp | src/pool/thread_pool.hpp:34-48 | with tasks queued the pool can go on, and a worker that can move can start one |
| ServerPool.EveryJointRunIsLinked | src/server/server.cc:58-138 | in every run of server and pool together their queues and tasks agree and no wake-up is lost |
| ServerPool.RunningTaskGoesOn | src/pool/thread_pool.hpp:41-46 | a worker with a task can return, or its handler can still let the connection go |
| WholeServer.StepKeepsInv | src/server/server.cc:58-292 | every step, with the handlers' own outcomes, keeps: what epoll, batch, queue and workers expect of a connection is what its last handler left, and its bytes are accounted for |
| WholeServer.EveryConnectionIsAnswered | src/server/server.cc:58-292 | in every run what a connection has sent is a prefix of the answers, in order, to consecutive stretches of what it read; each byte is answered once exactly if no answered text left bytes |
| WholeServer.HandlerLeaves | src/server/server.cc:251-292 | in every run and either mode: after a handler its connection is in epoll exactly if still open, for writing exactly if bytes are left to send, and closed exactly if the read has ended, or the write has neither sent all on a connection to be kept nor stopped for lack of room |
| WholeServer.ArmedForWritingIff | src/server/server.cc:264-292 | in every run epoll watches a connection for room to write exactly while an answer is left to send |
| WholeServer.EdgeTriggeredClosesIff | src/server/server.cc:251-283 | in every edge-triggered run a read handler closes exactly at the end of the stream or on an error, a write handler exactly on an error or with all answers sent and none more wanted |
| WholeServer.ReadersHaveSentAll | src/server/server.cc:251-262 | a connection being read has nothing left to send |
| HttpSession.ClientReadsAllAnswers | src/server/server.cc:264-283 | when all is sent, a client reading by length lines finds every answer's lines and content |
| HttpSession.RestIsSuffix | src/http/http_request.cc:37-66 | the parser leaves an end of its text |
| LogProtocol.StepKeepsLogInv | src/log/log.cc:90-117 | every action keeps: one holder of the mutex, room for its push, messages in order, orderly shutdown |
| LogProtocol.EveryLogRunIsSafe | src/log/log.cc:90-187 | in every interleaving pushed messages are those in the file, in the drain thread's hand and queued, in order; direct ones are in the file |
| LogProtocol.EveryMessageIsAccepted | src/log/log.cc:90-117 | in every run each message a writer brings is queued once, written once, or in the writer's hands |
| LogProtocol.QueuedExactlyIfRoom | src/log/log.cc:111-115 | a message goes ahead of queued ones exactly if the queue is full; with room it is queued behind them |
| LogProtocol.WriteRuns | src/log/log.cc:90-117 | while the log is open any writer can bring any message; with the mutex free its write leaves it behind the queued ones if there is room, else in the file, and no drain thread waiting on it |
| LogProtocol.HolderNeverBlocks | src/log/log.cc:111-112 | the push under the log's mutex never finds the queue full |
| LogProtocol.NoDeadlock | src/log/log.cc:90-187 | while anything is left to do, some writer or the drain thread can go on |
| LogProtocol.OpenLogWritesAll | src/log/log.cc:90-187 | in either text: from any point of any run, work without new messages comes to rest within a bound, and then the file holds each message brought exactly once |
| LogProtocol.JoinReturns | src/log/log.cc:151-158 | with the repaired queue the drain thread ends within a bounded number of steps after close |
| LogProtocol.LogShutdownCompletes | src/log/log.cc:151-166 | any run past the repaired close takes at most two more steps, and ends with the drain thread gone and every accepted message in the file exactly once |
| LogProtocol.FileIsComplete | src/log/log.cc:151-166 | once the drain thread is gone every accepted message is in the file exactly once, queued ones in order |
| LogProtocol.FileHoldsAllArrivals | src/log/log.cc:90-187 | in every run that ends with the drain thread gone the file holds exactly the messages brought |
| LogProtocol.AsWrittenDrainEndsIffWaiting | src/log/log.cc:153-157 | as written some undisturbed run after close ends the drain thread exactly if the notification finds it in its wait or coming out of it |
| LogProtocol.AsWrittenJoinHangs | src/log/log.cc:156-157 | otherwise only a spurious wake-up is left |
| LogProtocol.LogStepIsQueueRun | src/log/log.cc:111-187 | every action of the log is a run of the blocking queue with one producer and one consumer |
| LogProtocol.LogRunIsQueueRun | src/log/log.cc:90-187 | so is every run: the queue inside the log is the blocking queue |
| LogProtocol.Log.constructor | src/log/log.cc:23-30 | an open log with an empty queue |
| LogProtocol.Log.WriteLocked | src/log/log.cc:111-115 | a full queue sends the message straight to the file |
| LogProtocol.Log.WritePush | src/log/log.cc:112 | the push finds room without asking again |
| LogProtocol.Log.PopForDrain | src/log/log.cc:183 | the drain thread's pop gives the oldest message, ends, or waits |
| LogProtocol.Log.WriteDrained | src/log/log.cc:184-185 | the popped message goes to the file before the next pop |

## Left out

- Integers are unbounded: only the wrap-around of size_t in the parent index of the heap is modelled.
- Sockets, epoll, readv, writev, stat, open and mmap: represented by their results; a file does not change while one response is built and sent.
- Real pointers in the iovec entries: offsets into the buffer's storage and the mapped file instead.
- HttpConnection.HttpConn.OnRead: whether a read ends in EAGAIN is one parameter, since errno is only looked at after the last read.
- ServerProtocol.Server.FinishTask: a handler's accesses to its connection before this one are a single step with it, since the connection is its own until then.
- WholeServer.EveryConnectionIsAnswered: over the values that the methods of `HttpConn` are proved against, not over the objects.
- ServerProtocol.Server.OnTick: the callbacks run after the pass instead of inside it; they do not touch the timer, and the order of closing is that of firing.
- Sockets, options, the working directory and the message to a descriptor turned away.
- HttpSession.SplitIsHarmlessIff: for cuts between two lines of the head; a cut inside a line or a body is not characterised.
- BlockQueueProtocol.BlockQueue.SetClosed: close is called once; the getters size, capacity, full and empty only read.
- BlockQueueProtocol.BlockQueue.PopAttempt: popTimeout is the same call with a timeout that may end its wait at any time.
- SqlConnPoolProtocol.EveryRunIsSafe: runs end before `SqlConnPool::close`, which empties the queue without taking units from the semaphore.
- LogProtocol.FileIsComplete: no writer is inside `write` when the destructor runs, and new ones do not come after it.
- Log line formatting, naming, rotation, levels and `fflush`; messages are opaque.
- MySQL calls: login and registration ask a database given as two functions; the pool's connections are opaque.
- The regular expression engine: the two patterns are spelled out as functions on a line.
- Percent decoding: not implemented in the source, so `%` passes through.
- Contents of the MIME table: any table of single-line types.
- Data races and the memory model: shared fields outside a mutex are read and written atomically.
- `main`, daemonising, socket options, the Epoller wrappers and the remaining getters: settled by one reading.
- A file descriptor left open when mmap fails (http_response.cc:120-124): descriptors of files are not modelled.
