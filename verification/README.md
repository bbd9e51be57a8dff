# A verified model of tiny-mq

tiny-mq is an in-process JMS broker. This project models the parts of it that are hard to get right and proves what
they promise, for every input, every run and every interleaving:

- the queue layer: the ten-band priority queue with its non-empty mask and counting semaphore
  (`PriorityQueue.dfy` for calls that do not overlap, `QueueProtocol.dfy` for threads that interleave), the
  semaphore itself (`Semaphore.dfy`) and the lock-free free list of the band queues (`FreeList.dfy`, with what its calls
  answer in `FreeListCalls.dfy`, counting with `Tally.dfy`); `PriorityLaws.dfy` has the order of service in priorities
  and calls;
- the consumer: the intrusive list of received messages on the heap (`InFlight.dfy`) and redelivery with counts, backoff and
  dead letters over whole runs (`Redelivery.dfy`, with the order in which messages are received and given back in
  `RedeliveryOrder.dfy`, and what each step does to every message and to the log in `RedeliveryLaws.dfy`);
- the delivery scheduler with its callers, its worker and stop (`Scheduler.dfy`);
- the storage: record log, index, rebuild and scans (`StorageLog.dfy`, `StorageIndex.dfy`, `StorageOrder.dfy`, `Storage.dfy`),
  the expiry sweep with its cursor (`Sweep.dfy`), and the B-tree that the storage uses as its index: reference
  (`SortedEntries.dfy`), nodes with parent and index links (`BTreeNodes.dfy`), descents (`BTree.dfy`), the climb along the
  parent links (`BTreeLinks.dfy`) and the tree as an object (`BTreeIndex.dfy`);
- the wire format and the code that reads and overwrites it at fixed offsets (`Bytes.dfy`, `Codec.dfy`, `MessageBytes.dfy`), and the
  agreement of headers and cached bytes over the life of a message (`MessageLife.dfy`);
- the transaction log and buffer (`TransactionLog.dfy`, `TransactionRuns.dfy`, `TransactionStorage.dfy`, `TransactionBuffer.dfy`),
  the producer's commit on top of them (`ProducerCommit.dfy`) and that of a session with several producers
  (`SessionCommit.dfy`);
- selectors from text to closure: tokenizer, grammar, parser, three-valued meaning and LIKE (`SelectorTokens.dfy`,
  `SelectorSyntax.dfy`, `SelectorMeaning.dfy`, `SelectorParser.dfy`, `SelectorText.dfy`), and what they compute in
  numbers and texts written out, down to their text (`SelectorLaws.dfy`);
- durable subscriptions of a topic: their names on disk (`DurableNames.dfy`), whole histories (`Durable.dfy`) and the
  topic's methods (`DurableTopic.dfy`).

`Options.dfy` and `Seqs.dfy` hold helpers. `dafny verify dfyconfig.toml` checks everything.

## How it is modelled

A protocol is a state, a set of actions and a step function; a run is a sequence of actions, and the main theorems speak of
every feasible run. One action is one atomic access or one critical section; memory is sequentially consistent, and the number of
threads is unbounded. Clock readings are arguments of the actions, in no assumed order. Objects that the broker updates in
place are classes whose methods are proved against functions; sequences of calls are covered by the invariants that every
method keeps.

Assumptions taken from the program's design: a band is FIFO for each enqueuing thread; a consumer belongs to one thread; files
are byte sequences without I/O errors; message uuids are not null and not reused; properties and bodies are byte
blocks.

## Where the code differs from its own description

- The headers block is described as 28 bytes (Message.cpp:102, Message.cpp:133); the sizes in the code add up to 33, and the
  fixed offsets used elsewhere agree with 33 (`Codec.Front`, `Codec.RawReadersAgreeOnEncodings`).
- Message.h:360-365 says that the mask never shows a band as empty while a message is there. Under overlapping calls it
  can: `QueueProtocol.MaskCanMissBand` gives the run, and `QueueProtocol.MaskCompleteExactly` says for every run when it
  happens. The full scan makes up for it (`QueueProtocol.TokenHolderGetsMessage`).
- The sweep deletes a record whose bytes end inside the numeric headers behind a non-zero expiration, although such a
  record decodes as a message that never expires: `Sweep.CutRecordIsSwept`; `Sweep.SweepAgreesWithIsExpired` says exactly when
  the two agree. The other raw readers have the same blind spot, with the exact condition in `Codec.RawReadersAgree`.
- A string whose length does not fit 32 bits is cut, and the buffer is longer than its contents; `Codec.RoundTrip` states the
  round trip with exactly that condition.
- LIKE is translated to a regular expression whose dot does not match line ends:
  `SelectorMeaning.LikeExactlyWithoutLineEnds`.
- A string literal without its closing quote is accepted: `SelectorTokens.UnterminatedAccepted`; a text has one exactly
  if its number of quote characters is odd: `SelectorTokens.OpenExactlyIfOdd`.
- Destination.cpp:256-258 says that durable subscriptions never collide on disk. Two of them can share a key or a directory,
  or have one directory in the other: `DurableNames.KeysCanMeet`, `DurableNames.DirsCanMeet`, `DurableNames.DirsCanNest`,
  `DurableNames.DirsCanTurnBack`. However directory names are followed, subscriptions hold what they are owed after every
  history, restarts included, if and only if no two of them do: `Durable.FaithfulExactly`. For names without path separators
  that is a condition on hyphens and unit separators (`Durable.FaithfulByName`); with them it is not (`Durable.PathsInNames`).
- From a restart to its next consumer a durable subscription gains nothing, and deleting it does nothing:
  `Durable.UnknownUntilNextConsumer`.
- Producer.cpp:153-155 says that the stored delivery time matches the one just resolved. It does for the producer whose
  commit comes first; a second producer of the session finds its messages flushed, and their stored time stays as it was:
  `SessionCommit.SecondProducerUnpatched`. And closing a producer rolls back what the others have buffered, so that their
  messages go out at the commit without being stored: `SessionCommit.ClosingLosesOthers`. `SessionCommit.SessionAgreesExactly`
  has the exact condition for both.
- Messages of one transaction go out by priority and are stored in the order of the sends; the two differ:
  `SessionCommit.PriorityAgainstAddOrder`.
- Rollback gives a transacted consumer's messages back by priority, not in the order of receipt:
  `RedeliveryOrder.RollbackByPriority`. Within a band the order is kept (`RedeliveryOrder.ReceiveOrderKept`), and
  `RedeliveryOrder.GoesBackFirstExactly` says when a message goes back before one received after it.

## Model

| member | source | states |
|---|---|---|
| `FreeList.StepKeeps` | external/concurrent_queue/concurrentqueue.h:1441-1528 | every atomic step of add and try_get keeps the invariant that ties each node's word to the list, the readers and the flag |
| `FreeList.ListSafety` | external/concurrent_queue/concurrentqueue.h:1441-1528 | in every state of every interleaving each node is in exactly one place, no node is on the list twice, and its count is list reference plus holders |
| `FreeList.TakeIsExclusive` | external/concurrent_queue/concurrentqueue.h:1464-1497 | the node that try_get has just unlinked belongs to no other thread or client, and its flag is clear |
| `FreeList.NoStaleNext` | external/concurrent_queue/concurrentqueue.h:1478-1482 | the successor that a compare-and-swap of the head installs is the node's current one |
| `FreeList.QuietMeansComplete` | external/concurrent_queue/concurrentqueue.h:1441-1528 | when all calls have returned every node is on the list or with a client: none is lost |
| `FreeList.NeverStuck` | external/concurrent_queue/concurrentqueue.h:1441-1497 | in every reachable state a thread inside a call can take its next step |
| `FreeListCalls.TryGetAnswers` | external/concurrent_queue/concurrentqueue.h:1464-1497 | whatever others do, try_get returns a node that was no client's, or nothing, and nothing only if the list has been empty since it was called |
| `FreeListCalls.AddAnswers` | external/concurrent_queue/concurrentqueue.h:1441-1462 | whatever others do, add returns with its node first on the list, or left to readers of which there is at least one |
| `FreeList.GetTakesFirst` | external/concurrent_queue/concurrentqueue.h:1464-1497 | try_get left alone takes the first node of the list in six steps, and fails only on an empty list |
| `FreeList.AddPutsFirst` | external/concurrent_queue/concurrentqueue.h:1441-1462 | add left alone puts a node without readers first on the list, with the old head behind it, and leaves one with readers to them |
| `Semaphore.StepKeeps` | external/concurrent_queue/lightweightsemaphore.h:262-296 | every atomic step keeps conservation of tokens and the debt to waiters |
| `Semaphore.SemaphoreSafety` | external/concurrent_queue/lightweightsemaphore.h:262-402 | initial count plus signals equals acquisitions plus positive count plus kernel permits plus permits about to be posted; unresolved waiters equal negative count plus permits |
| `Semaphore.RefinesCounter` | external/concurrent_queue/lightweightsemaphore.h:341-402 | seen from outside each step is a step of a plain token counter, and a wait succeeds only by taking a token that is there |
| `Semaphore.GiveUpIsOwed` | external/concurrent_queue/lightweightsemaphore.h:283-295 | a timed-out waiter in its give-up loop can undo its decrement or is owed a permit |
| `Semaphore.GiveUpEndsAlone` | external/concurrent_queue/lightweightsemaphore.h:283-295 | the give-up loop ends after two steps of its own once nothing is outstanding |
| `Semaphore.WaitersCanWake` | external/concurrent_queue/lightweightsemaphore.h:393-402 | with no post outstanding and a non-negative count each waiter has its own kernel permit: no wake-up is lost |
| `Semaphore.QuietCountIsTokens` | external/concurrent_queue/lightweightsemaphore.h:262-402 | when all calls have returned the count is the number of unused tokens |
| `Semaphore.Answers` | external/concurrent_queue/lightweightsemaphore.h:262-340 | whatever others do, tryWait and wait return true exactly in the step that takes a token from the count or a permit from the kernel; tryWait returns false only on seeing no token, wait only when it takes its decrement back; a compare-and-swap that finds what it expects takes the token |
| `Semaphore.TryWaitExactly` | external/concurrent_queue/lightweightsemaphore.h:341-349 | left alone, tryWait takes a token exactly if the count is positive, and else changes nothing |
| `Semaphore.WaitTakesOrWaits` | external/concurrent_queue/lightweightsemaphore.h:262-282 | left alone, wait does the same while the count is positive, and else is a waiter after its spinning |
| `Semaphore.PollReturns` | external/concurrent_queue/lightweightsemaphore.h:262-296 | left alone, a wait with timeout 0 and no token returns and leaves everything as it was |
| `Semaphore.TimedOutReturns` | external/concurrent_queue/lightweightsemaphore.h:275-296 | a waiter that times out and is left alone returns in two steps, with its permit or its decrement undone |
| `Semaphore.SignalServesWaiters` | external/concurrent_queue/lightweightsemaphore.h:393-402 | left alone, signal(n) adds n to the count and posts one permit for each waiter it can serve |
| `QueueProtocol.StepKeeps` | Message.h:320-394 | every step of any number of enqueuers and dequeuers keeps the balance of messages and tokens |
| `QueueProtocol.QueueSafety` | Message.h:320-394 | in every state of every interleaving the messages in the bands equal the semaphore's tokens plus the dequeuers holding one plus the enqueuers between band insert and signal, and each thread's messages keep their order |
| `QueueProtocol.NothingLostOrDuplicated` | Message.h:320-394 | each message is handed out or stored exactly as often as it was sent |
| `QueueProtocol.EveryCallCounts` | Message.h:320-394 | each call of enqueue is about to insert its message, or that message, with its priority, is handed out or stored |
| `QueueProtocol.HighestGoesFirst` | Message.h:320-378 | a dequeuer left alone with a complete mask takes a message such that none stored has a higher clamped priority |
| `QueueProtocol.NeverStuck` | Message.h:320-394 | in every reachable state a thread inside a call can take its next step |
| `QueueProtocol.QuietMeansOneTokenEach` | Message.h:320-394 | when all calls have returned there is one token for each stored message: none is stranded |
| `QueueProtocol.TokenHolderGetsMessage` | Message.h:366-394 | a dequeuer with a token that has not gone past every message obtains one in every run of its own, even if the mask has lost the bit or it is about to clear one: no such run is longer than 44 steps, and one that has not delivered can go on |
| `QueueProtocol.BehindReturnsToken` | Message.h:390-394 | one whose scan is past every message returns its token and takes nothing |
| `QueueProtocol.GetsMessageExactly` | Message.h:366-394 | left alone until it returns, a token holder has a message if and only if it was not past every one |
| `QueueProtocol.MaskCanMissBand` | Message.h:366-373 | a concrete run after which a band holds a message and its bit is clear, and a lower priority is delivered first |
| `QueueProtocol.StepMarks` | Message.h:320-373 | a step loses the mark of a non-empty band if and only if it is a fetch_and on a band that is not empty and that no enqueuer is about to mark |
| `QueueProtocol.MaskCompleteExactly` | Message.h:360-373 | over every run: the mask stays complete throughout if and only if the run has no such fetch_and |
| `QueueProtocol.AloneNeverErases` | Message.h:360-373 | runs whose calls do not overlap have none |
| `PriorityQueue.Queue.Enqueue` | Message.h:320-328 | the message joins the end of its clamped band, the mask stays complete and the token count matches |
| `PriorityQueue.Queue.TryDequeue` | Message.h:350-353 | fails exactly if the queue is empty; otherwise returns the oldest message of the highest non-empty band |
| `PriorityQueue.Queue.DequeueFromBandsOrReturnToken` | Message.h:390-394 | with a token in hand, takes the top message and keeps one token per message |
| `PriorityQueue.Queue.DequeueFromBands` | Message.h:366-378 | the mask walk ends and finds the top message; the safety-net scan is right whatever the mask says |
| `PriorityQueue.TopPopped` | Message.h:366-378 | taking the first message of the highest band is taking the head of the contents in delivery order |
| `PriorityLaws.ServeAll` | Message.h:320-353 | for every sequence of calls on an empty queue: each dequeue answers with the message of the highest clamped priority, and of those the one enqueued first, among all enqueued and not yet served, and with nothing exactly if there is none |
| `PriorityLaws.PendingInTurn` | Message.h:366-378 | read in delivery order, the queue is sorted by falling priority and then by enqueueing |
| `SortedEntries.PutIsUpdate` | external/btree/include/fc/btree.h:1630-1666 | the reference insertion on sorted entries is the map update and keeps the order |
| `SortedEntries.RemoveIsDelete` | external/btree/include/fc/btree.h:1718-1725 | the reference removal is the map removal and keeps the order |
| `SortedEntries.LookupIsGet` | external/btree/include/fc/btree.h:1514-1518 | the reference lookup is the map lookup |
| `BTreeNodes.SizeCounts` | external/btree/include/fc/btree.h:1018-1138 | in a well-shaped tree the stored subtree size is the number of entries |
| `BTreeNodes.SplitKeeps` | external/btree/include/fc/btree.h:1018-1083 | splitting a full child keeps shape, key counts, heights, sizes, parent and index links and the entries in order |
| `BTreeNodes.MergeKeeps` | external/btree/include/fc/btree.h:1084-1138 | merging two minimal children keeps the same, the links of immigrated and shifted children included |
| `BTreeNodes.LeftRotateKeeps` | external/btree/include/fc/btree.h:655-697 | a left rotation keeps the same, moves a child to its new parent and gives the poor child a key |
| `BTreeNodes.RightRotateKeeps` | external/btree/include/fc/btree.h:774-816 | a right rotation keeps the same, moves a child to its new parent and gives the poor child a key |
| `BTree.SearchIsLookup` | external/btree/include/fc/btree.h:934-948 | the descent finds exactly what the sorted entries hold under the key |
| `BTree.InsertIsPut` | external/btree/include/fc/btree.h:1630-1666 | for every fanout of at least 2 the insertion descent with preventive splits yields a well-shaped tree whose entries are the reference insertion |
| `BTree.PrepareBrackets` | external/btree/include/fc/btree.h:1291-1345 | before the erase descent goes down, rotations or a merge leave the child with a key to spare and the sought key inside it: no underflow |
| `BTree.EraseIsRemove` | external/btree/include/fc/btree.h:1262-1345 | the erase descent ends, keeps the shape and removes exactly the key |
| `BTreeLinks.TrailFollowsParents` | external/btree/include/fc/btree.h:1206-1210 | in a tree of different nodes with right links, each parent_ leads to the next node above, and from the root on to where its own parent_ says |
| `BTreeLinks.ClimbsExactly` | external/btree/include/fc/btree.h:1206-1210 | the climb from a node visits exactly the nodes whose subtree holds it |
| `BTreeLinks.Climb` | external/btree/include/fc/btree.h:1282-1286 | the loop along parent_ changes the sizes of exactly those nodes |
| `BTreeIndex.PlacedIsInserted` | external/btree/include/fc/btree.h:1185-1215 | the insertion descent that touches no size above the leaf, followed by the climb, gives the tree whose sizes and links are right; new nodes have unused identities |
| `BTreeIndex.ErasedIsErased` | external/btree/include/fc/btree.h:1262-1345 | the same for the erase descent, its swaps, rotations and merges |
| `BTreeIndex.GrownOnce` | external/btree/include/fc/btree.h:1630-1644 | a full root under a new one and split leaves all nodes different |
| `BTreeIndex.PromotionCommutes` | external/btree/include/fc/btree.h:641-649 | promoting the only child before the climb gives the same tree as after it |
| `BTreeIndex.Index.Find` | external/btree/include/fc/btree.h:1514-1516 | finds what the map holds |
| `BTreeIndex.Index.Set` | external/btree/include/fc/btree.h:1630-1666 | contents become the updated map; shape, sizes, parent and index links stay right and all nodes different |
| `BTreeIndex.Index.Erase` | external/btree/include/fc/btree.h:1718-1725 | contents lose the key, with the same kept; an emptied root gives way to its child; the count returned is whether the key was there |
| `InFlight.Member` | Message.h:112-128 | a message is in a consumer's list exactly if that consumer owns it, so it is in at most one list |
| `InFlight.Message.Copy` | Message.h:112-125 | a copy is in no list |
| `InFlight.Consumer.Track` | Consumer.cpp:137-175 | the received message becomes the end of this list; all lists stay well linked and the others unchanged |
| `InFlight.Consumer.Acknowledge` | Consumer.cpp:451-509 | exactly this message leaves this list; acknowledging a foreign or untracked message changes nothing |
| `InFlight.Consumer.Splice` | Consumer.cpp:484-508 | what the pointer assignments do to every link field |
| `InFlight.Consumer.Detach` | Consumer.cpp:296-325 | the walk of recover and clearInFlight visits the list in receive order, unlinks every node and leaves the other lists alone |
| `InFlight.PerformAll` | Consumer.cpp:137-175 | for any number of consumers and any order of receiving, acknowledging, recovering and teardown the links represent the sequences called for |
| `Codec.RoundTrip` | Message.cpp:120-214 | decoding the encoding into a fresh message restores every field if and only if all blocks are shorter than 2^32 bytes |
| `Codec.Overwritten` | Message.cpp:163-214 | decoding an encoding over any message: every field is restored, empty blocks leave properties and data |
| `Codec.RehydrationIsIdentity` | Consumer.cpp:86-103 | decoding a message's own encoding changes nothing |
| `Codec.EncodeInjective` | Message.cpp:120-161 | different messages have different encodings |
| `Codec.DecodedFits` | Message.cpp:77-84 | whatever the bytes, a decoded block is shorter than 2^32 |
| `Codec.RawReadersAgree` | Destination.cpp:98-141 | on any bytes the readers at offsets 51, 43 and 35 equal the decoded, clamped headers if and only if the record is not cut off behind the field with another value than the default |
| `Codec.RawReadersAgreeOnEncodings` | ConcurrentLinearStorage.cpp:244-258 | on every record written by the broker they agree with the message |
| `Codec.PatchIsReencoding` | Message.cpp:23-39 | overwriting the delivery time in a record is encoding the message with the new time |
| `Codec.PatchChangesOneField` | TransactionBuffer.cpp:20-33 | on any complete record, whoever wrote it, overwriting changes the decoded delivery time and nothing else |
| `MessageBytes.PutString` | Message.cpp:69-74 | appends the length-prefixed block at the moving offset |
| `MessageBytes.GetString` | Message.cpp:77-84 | reads a block or reports that it is cut short |
| `MessageBytes.Message.ToBytes` | Message.cpp:120-161 | the buffer filled through a moving offset is the encoding |
| `MessageBytes.Message.FromBytes` | Message.cpp:163-214 | the fields end up as the decoding function says, including early returns |
| `MessageBytes.Message.RefreshCache` | Message.cpp:41-49 | a persistent message's cache becomes its record |
| `MessageBytes.Message.PatchCache` | Message.cpp:23-39 | the cache becomes the patched cache |
| `MessageBytes.PatchInBytes` | TransactionBuffer.cpp:29-33 | the second copy of the patch does the same in place |
| `MessageBytes.ObjectBody.DataAsBytes` | ObjectMessage.cpp:56-64 | the body is the class name as a block and the bytes |
| `MessageBytes.ObjectBody.SetDataFromBytes` | ObjectMessage.cpp:66-78 | reads them back; a name cut short leaves both empty |
| `MessageBytes.ObjectRoundTrip` | ObjectMessage.cpp:56-78 | name and body are restored if and only if the name is shorter than 2^32 |
| `MessageLife.CacheAgrees` | Consumer.cpp:86-103 | through push, clamp, commit, replay, receipt, redelivery and dead-lettering a waiting persistent message has a cache that agrees with its delivery time and band, and for one not made by replay recv changes nothing |
| `MessageLife.ReplayedInv` | Destination.cpp:162-192 | replaying any bytes leaves header and cache in agreement, clamped or not |
| `MessageLife.ShellAgrees` | Destination.cpp:178-188 | receiving a replayed message keeps its delivery time and band, even if its record is truncated |
| `MessageLife.ClampKeeps` | DeliveryScheduler.cpp:49-68 | the far-future clamp changes header and cache together |
| `MessageLife.CommitKeeps` | Producer.cpp:157-175 | resolving a delay at commit changes header and cache together |
| `MessageLife.CommitPatchesBoth` | Producer.cpp:157-178 | after commit the cache is the record with the resolved time; the stored bytes equal it if and only if no other producer of the session was closed meanwhile, and none committed first, or there was no delay, or the time is the old one |
| `MessageLife.RestartRestores` | Destination.cpp:162-192 | for every persistent message that fits: recv after a restart hands out the stored message, every field of it, its delivery time bounded as replay and the clamps bound it |
| `MessageLife.ReplayedIsRecord` | Destination.cpp:162-192 | replay caches the record of the message with its delivery time kept if it is between 0 and ten years ahead, else 0 |
| `MessageLife.RecordReceived` | Consumer.cpp:86-103 | a message without properties and body takes over everything that a record in its cache says |
| `MessageLife.NoRecordUnlessPersistent` | Consumer.cpp:86-103 | in every run a message that is not persistent has no record in cache or buffer and is received as it is |
| `MessageLife.RedeliveryChanges` | Consumer.cpp:331-384 | redelivery marks, counts and sets the time and touches no other field; a dead letter loses its time and gains properties |
| `MessageLife.ClampChanges` | DeliveryScheduler.cpp:49-68 | the clamp gives up a time more than ten years ahead and keeps every other |
| `MessageLife.ClampObject` | DeliveryScheduler.cpp:49-68 | the same step on the message object |
| `MessageLife.ReceiveObject` | Consumer.cpp:86-103 | a replayed message whose cache is the record of the stored content becomes that content, every field; otherwise the same step on the message object |
| `MessageLife.RedeliverObject` | Consumer.cpp:331-392 | the same step on the message object |
| `StorageLog.ReadAt` | LinearStorage.cpp:79-112 | reading at a record boundary finds that record's header and data and the next boundary; at the end nothing |
| `StorageLog.OffsetGrows` | LinearStorage.cpp:45-77 | records follow one another without overlap |
| `StorageLog.ImageSize` | LinearStorage.cpp:267-282 | the walk from header to header ends at the file size |
| `StorageLog.MarkedImage` | LinearStorage.cpp:128-147 | writing the one flag byte yields the file in which exactly that record is deleted |
| `StorageIndex.IndexUnique` | LinearStorage.cpp:267-282 | at most one index agrees with the files |
| `StorageIndex.AppendIndexes` | LinearStorage.cpp:212-222 | the index stays in agreement when a record is appended and indexed |
| `StorageIndex.DeleteIndexes` | LinearStorage.cpp:244-263 | the index stays in agreement when a record is deleted and dropped |
| `Storage.Storage.constructor` | LinearStorage.cpp:153-189 | opening existing files yields a valid store whose current tom is the highest |
| `Storage.Storage.RebuildIndex` | LinearStorage.cpp:267-282 | whatever the order of the toms, the rebuilt index maps exactly the undeleted records |
| `Storage.Storage.CurrentTom` | LinearStorage.cpp:195-206 | the tom to append to exists; a new one is made only for an empty store |
| `Storage.Storage.Append` | LinearStorage.cpp:212-222 | empty data is refused; otherwise the record is the last of the store and indexed |
| `Storage.Storage.RecordFor` | LinearStorage.cpp:228-237 | finds exactly the undeleted record of the uuid, else the default record |
| `Storage.Storage.Remove` | LinearStorage.cpp:244-263 | deletes exactly that record and its index entry, also when the caller's header is empty |
| `Storage.Storage.Scan` | LinearStorage.cpp:285-305 | every undeleted record once with its data, in file order within a tom |
| `Storage.Storage.ScanPrefix` | LinearStorage.cpp:307-344 | hands over the live records of the next maxRecords positions and moves the cursor by as many, or back to the start behind the last |
| `Storage.Reopen` | LinearStorage.cpp:153-189 | closing and opening gives back the same index |
| `StorageOrder.AppendSlots` | LinearStorage.cpp:212-222 | an append adds one record at the end of the scan order |
| `StorageOrder.DeleteSlots` | LinearStorage.cpp:244-263 | a removal changes one record and no position |
| `Sweep.ConcurrentStorage.SweepExpired` | ConcurrentLinearStorage.cpp:235-263 | one call inspects at most 4096 records from the cursor on and deletes exactly those that are live and expired |
| `Sweep.ConcurrentStorage.Append` | LinearStorage.cpp:212-222 | the cursor stays on its record boundary |
| `Sweep.ConcurrentStorage.Remove` | LinearStorage.cpp:244-263 | the cursor stays on its record boundary |
| `Sweep.PrefixDecides` | ConcurrentLinearStorage.cpp:244-258 | the 43 bytes read decide like the whole record |
| `Sweep.PassesAreComplete` | ConcurrentLinearStorage.cpp:235-263 | under any interleaving every finished pass inspected each record present at its start exactly once, in order |
| `Sweep.DeletedWhy` | ConcurrentLinearStorage.cpp:252-262 | an event deletes a record exactly if it removes it or sweeps over it while it is live and expired |
| `Sweep.SweepAgreesWithIsExpired` | Message.cpp:18-21 | the sweep and isExpired of the decoded message agree at all times if and only if the record is not cut off behind a non-zero expiration |
| `Sweep.CutRecordIsSwept` | ConcurrentLinearStorage.cpp:252-258 | a record that shows the difference |
| `Scheduler.CappedWait` | DeliveryScheduler.cpp:117-129 | the wait is between 0 and a day, never past the deadline, and 0 exactly if it has passed |
| `Scheduler.InsertSorted` | DeliveryScheduler.cpp:111 | insertion keeps the order by time and, for equal times, by insertion |
| `Scheduler.StepKeeps` | DeliveryScheduler.cpp:29-210 | every step of callers, worker and stop keeps the invariant |
| `Scheduler.ExactlyOnePlace` | DeliveryScheduler.cpp:29-115 | each message handed in is in exactly one of caller, queue, pending, worker's hand or dropped, and nowhere twice |
| `Scheduler.DeliveriesJustified` | DeliveryScheduler.cpp:31-75 | every delivery followed a clock reading at or after its time, or had no time, or was over ten years off, or was non-persistent after stop |
| `Scheduler.TakesEarliest` | DeliveryScheduler.cpp:170-180 | the worker takes an entry if and only if some pending entry is due, and then the earliest, the first inserted of equals; it goes back to its loop only when nothing is due |
| `Scheduler.TimedOutWorkerDelivers` | DeliveryScheduler.cpp:163-180 | a worker that times out on an unchanged map and is left to itself has queued exactly the due entries, earliest first, after two steps for each and one more, when it is back in its loop; before that it always has a step to take |
| `Scheduler.DueGoesAtOnce` | DeliveryScheduler.cpp:29-75 | a message without a time, due, or absurdly far ahead is queued at once by its caller, any other held back |
| `Scheduler.HeldBackIsPending` | DeliveryScheduler.cpp:75-115 | a message held back becomes pending at its place by time, unless stop was first; then it is queued late, or dropped exactly if persistent |
| `Scheduler.HandedInIsCarried` | DeliveryScheduler.cpp:29-210 | over every run, each message handed in is, as it was handed in, with its caller, pending, with the worker or queued, or dropped after stop and persistent; what a clamp does to its header is `MessageLife.ClampChanges` |
| `Scheduler.LoopWaitsForEarliest` | DeliveryScheduler.cpp:139-163 | at the top of its loop the worker exits exactly after stop, sleeps exactly if something is pending, until the earliest entry is due or for a day |
| `Scheduler.SleepsNoLongerThanNeeded` | DeliveryScheduler.cpp:139-163 | a worker asleep on an unchanged map has a deadline no later than the earliest entry, or already past, and at most a day away |
| `Scheduler.WakeupsReachTheWorker` | DeliveryScheduler.cpp:111-115 | an insert or a stop makes the worker's wait predicate true, and a due wake-up is signalled or about to be |
| `Scheduler.AfterStop` | DeliveryScheduler.cpp:75-106 | once stop has set its flag no worker starts and pending only gets shorter, from the front |
| `Scheduler.WorkerExits` | DeliveryScheduler.cpp:183-197 | after stop, in every run and whatever callers do, the worker has a bounded number of steps left and can take the next one until it has exited, so join returns |
| `TransactionLog.AddedLogged` | TransactionBuffer.cpp:81-103 | after addMessage the log replays to the table |
| `TransactionLog.ClosedLogged` | TransactionBuffer.cpp:113-164 | after commit or rollback the log replays to the table |
| `TransactionLog.RecoveryClosesAll` | TransactionBuffer.cpp:166-239 | loading any log, cut off anywhere, and recovering leaves no transaction open, now and at the next load |
| `TransactionLog.RecoveredExtends` | TransactionBuffer.cpp:217-239 | recovery only adds rollbacks of transactions that were open |
| `TransactionLog.RecoveryIdempotent` | TransactionBuffer.cpp:217-239 | recovering again changes nothing |
| `TransactionLog.AddedBook` | TransactionBuffer.cpp:81-103 | seen as a book of messages per transaction, addMessage appends one message to one transaction |
| `TransactionLog.RetimedBook` | TransactionBuffer.cpp:105-111 | patchDeliveryTime overwrites the time of that message only |
| `TransactionLog.ClosedBook` | TransactionBuffer.cpp:113-164 | commit and rollback take one transaction out and leave the others' messages alone |
| `TransactionRuns.LogTellsOpen` | TransactionBuffer.cpp:81-239 | at every point of any run, crashes included, the log replays to exactly the open transactions |
| `TransactionRuns.NoDirtyWrites` | TransactionBuffer.cpp:113-164 | whatever is in the storage was committed, is there once, and is neither of an open nor of a rolled-back transaction |
| `TransactionRuns.KeptWasCommitted` | TransactionBuffer.cpp:113-144 | such a message has an ADD line and a later COMMIT line of its transaction with no close between |
| `TransactionRuns.BatchComplete` | TransactionBuffer.cpp:125-133 | a batch holds the messages in ADD order with the buffered bytes, if all are buffered |
| `TransactionStorage.StorageIsExact` | TransactionBuffer.cpp:113-144 | over every run, crashes included, also between the two lines of an addMessage, the storage consists of whole batches, each at most once, and each is what its COMMIT was owed: the messages in ADD order with their patched bytes; the log replays to the rest |
| `TransactionStorage.OnlyCrashesLose` | TransactionBuffer.cpp:113-144 | in a run without a crash every batch that a commit handed over is being written or is in the storage; once none is being written all are |
| `TransactionStorage.StepExact` | TransactionBuffer.cpp:81-239 | every step keeps buffer, log, batches and storage in agreement with a ledger of what was added, patched and lost |
| `TransactionStorage.BatchIsSurviving` | TransactionBuffer.cpp:123-133 | the commit loop takes out of the buffer exactly what the ledger has left for the transaction |
| `TransactionStorage.PostingFollows` | TransactionBuffer.cpp:81-111 | while its transaction is open and no crash comes a message keeps its place, and its bytes are those added with every later patch |
| `TransactionStorage.AllSurvive` | TransactionBuffer.cpp:113-144 | a transaction that no crash touched is handed over whole and in order |
| `TransactionStorage.SinceCrash` | TransactionBuffer.cpp:166-207 | of one that a crash interrupted and that is committed nevertheless, exactly what was added since is handed over |
| `TransactionStorage.BufferedWithoutCrash` | TransactionBuffer.cpp:125-133 | in a run without a crash a commit finds every message of its transaction in the buffer |
| `TransactionBuffer.TransactionBuffer.constructor` | TransactionBuffer.cpp:36-49 | opening replays the log |
| `TransactionBuffer.TransactionBuffer.LoadTransactionLog` | TransactionBuffer.cpp:166-207 | the line loop computes the replay |
| `TransactionBuffer.TransactionBuffer.AddMessage` | TransactionBuffer.cpp:81-103 | BEGIN if needed, then ADD; the new state and book |
| `TransactionBuffer.TransactionBuffer.PatchDeliveryTime` | TransactionBuffer.cpp:105-111 | the new state and book; unknown messages change nothing |
| `TransactionBuffer.TransactionBuffer.CommitLocked` | TransactionBuffer.cpp:113-138 | the batch is the transaction's book entry; an unknown transaction yields nothing |
| `TransactionBuffer.TransactionBuffer.CommitTransaction` | TransactionBuffer.cpp:113-144 | the storage gains exactly the transaction's messages |
| `TransactionBuffer.TransactionBuffer.RollbackTransaction` | TransactionBuffer.cpp:146-164 | the transaction is gone and the storage unchanged |
| `TransactionBuffer.TransactionBuffer.Recover` | TransactionBuffer.cpp:217-239 | no transaction is open and the log says so |
| `ProducerCommit.ResolvedReady` | Producer.cpp:157-175 | a resolved persistent message has its own encoding in the cache |
| `ProducerCommit.Producer.Send` | Consumer.cpp:190-250 | a transacted send joins its band of the staging queue and, if persistent, the end of the transaction in the buffer |
| `ProducerCommit.EntryRetimed` | TransactionBuffer.cpp:105-111 | patching a message in the buffer patches its entry in the transaction and no other |
| `ProducerCommit.Producer.Commit` | Producer.cpp:147-193 | the staged messages go out in priority order with resolved times, and the storage gains whatever the buffer has for the transaction, of mixed priorities and of other producers too, in ADD order, patched for this producer |
| `ProducerCommit.Producer.ResolveOne` | Producer.cpp:157-178 | one round of the loop changes header, cache and, if still there, the buffered bytes |
| `ProducerCommit.Producer.Rollback` | Producer.cpp:195-207 | the staged messages are dropped and the buffer loses the whole transaction, other producers' messages included |
| `Codec.PatchVisible` | Message.cpp:23-39 | a patched record differs from the record if and only if the time differs |
| `SessionCommit.GoesOutByPriority` | Producer.cpp:156-178 | a producer's messages go out highest band first and in the order of the sends within a band |
| `SessionCommit.QueueMembers` | Producer.cpp:156-178 | its queue holds exactly the messages it sent, each once |
| `SessionCommit.FirstCommitStores` | Session.cpp:217-231 | the first commit of a session stores what all its producers have sent since the transaction was last thrown away, in the order of the sends, resolved for the first producer only |
| `SessionCommit.AgreesExactly` | Producer.cpp:157-178 | the bytes that a commit stores for a message are those in its cache if and only if its producer was first, or it had no delay, or the resolved time is the old one |
| `SessionCommit.StoredExactly` | Session.cpp:217-231 | a message is stored with the bytes of its cache if and only if it was sent after the last closing of a producer, and the above holds |
| `SessionCommit.SessionAgreesExactly` | Session.cpp:217-231 | the same for all persistent messages that a session's commit delivers |
| `SessionCommit.ClosingLosesOthers` | Producer.cpp:30-36 | two producers, and the second is closed: the first one's undelayed message goes out and is not stored |
| `SessionCommit.SecondProducerUnpatched` | TransactionBuffer.cpp:105-111 | two producers: the second one's delayed message is stored with time 0 and cached with its resolved time |
| `SessionCommit.PriorityAgainstAddOrder` | Producer.cpp:156-193 | a low priority before a high one: stored in that order and delivered in the other |
| `SessionCommit.Session.Send` | Consumer.cpp:190-250 | every send keeps queues and buffer in step with the sends of the transaction |
| `SessionCommit.Session.Commit` | Session.cpp:217-231 | each producer's messages go out by priority, resolved on the clock of its turn; the storage gains the persistent messages sent since the last closing, as the first commit left them; the next transaction starts empty |
| `SessionCommit.Session.CloseProducer` | Session.cpp:70-77 | its messages are dropped, the others' stay staged, and the buffer has none of them any more |
| `SessionCommit.Session.Rollback` | Session.cpp:236-246 | nothing stays staged or buffered, and the storage is unchanged |
| `SelectorTokens.LexRoundTrip` | Selector.cpp:52-150 | any lexemes written with spaces are read back, quotes doubled in literals |
| `SelectorTokens.UnterminatedAccepted` | Selector.cpp:98-115 | a literal without its closing quote is accepted, whatever its text, and reads as if the quote were there |
| `SelectorTokens.OpenExactlyIfOdd` | Selector.cpp:52-150 | in every text that lexes a literal is left open if and only if the number of quote characters is odd |
| `SelectorTokens.Tokenizer.Next` | Selector.cpp:56-88 | the moving position yields the next lexeme and stops behind it; words become keywords in `SelectorText` |
| `SelectorTokens.Tokenizer.ReadString` | Selector.cpp:98-115 | the loop reads a literal with doubled quotes |
| `SelectorTokens.Tokenizer.ReadNumberToken` | Selector.cpp:117-128 | sign, digits and fraction |
| `SelectorSyntax.AcceptsTheLanguage` | Selector.cpp:287-297 | the parser accepts a token list if and only if the grammar derives it |
| `SelectorSyntax.BuildsTheTree` | Selector.cpp:299-492 | it builds the tree from which the tokens were derived |
| `SelectorSyntax.DerivationUnique` | Selector.cpp:287-297 | a token list has at most one derivation |
| `SelectorSyntax.OrSound` | Selector.cpp:264-270 | what is read is derived by the tree built, and the rest is left |
| `SelectorSyntax.OrComplete` | Selector.cpp:299-314 | every derivation followed by a token that cannot extend it is found |
| `SelectorMeaning.OrCompiles` | Selector.cpp:299-314 | the nested short-circuiting closures evaluate to the three-valued disjunction of all operands |
| `SelectorMeaning.AndCompiles` | Selector.cpp:316-331 | the same for the conjunction |
| `SelectorMeaning.RegexReadsBack` | Selector.cpp:235-254 | the escaped pattern is read back as the intended atoms |
| `SelectorMeaning.LikeToRegex` | Selector.cpp:235-254 | the loop builds that expression and running it is matching those atoms |
| `SelectorMeaning.RegexVersusLike` | Selector.cpp:403-413 | what the expression matches LIKE matches; the converse on text without line ends |
| `SelectorMeaning.LikeExactlyWithoutLineEnds` | Selector.cpp:403-413 | the translation is right for every pattern if and only if the text has no line end |
| `SelectorLaws.AnyText` | Selector.cpp:235-254 | "%" matches exactly the texts without line feed and carriage return |
| `SelectorLaws.AnyCharacter` | Selector.cpp:235-254 | "_" matches exactly the texts of one other character |
| `SelectorLaws.Spelling` | Selector.cpp:235-254 | how each character of a pattern is spelled in the expression, and which are escaped |
| `SelectorLaws.LikeLaws` | Selector.cpp:235-254 | without wildcards a pattern is its own text; with "%" behind it any text that starts with it; "_" is any one character |
| `SelectorLaws.LikeEnding` | Selector.cpp:235-254 | with "%" in front it is any text that ends with it |
| `SelectorLaws.RelationOfInts` | Selector.cpp:216-233 | on integers the six relations are =, <>, <, <=, >, >= of the integers |
| `SelectorLaws.RelationOfNumbers` | Selector.cpp:207-233 | the same on numbers of either kind, by value |
| `SelectorLaws.RelationOfTexts` | Selector.cpp:216-233 | texts are equal or not, and never ordered |
| `SelectorLaws.RelationOfStrangers` | Selector.cpp:216-233 | values of different kinds and absent ones are unequal and unordered |
| `SelectorLaws.BetweenNumbers` | Selector.cpp:366-381 | BETWEEN on numbers is low <= v <= high |
| `SelectorLaws.InNumbers` | Selector.cpp:383-401 | IN on numbers is equality with some item |
| `SelectorLaws.InTexts` | Selector.cpp:383-401 | IN on texts is equality with some item |
| `SelectorLaws.AbsentIsNull` | Selector.cpp:352-358 | an absent property is null, and only IS NULL tells |
| `SelectorLaws.OrOfOperands` | Selector.cpp:299-314 | a disjunction is a yes exactly if an operand is, and a no exactly if all are |
| `SelectorLaws.AndOfOperands` | Selector.cpp:316-331 | a conjunction is a yes exactly if all operands are, and a no exactly if one is |
| `SelectorLaws.NotOfOperand` | Selector.cpp:333-344 | NOT exchanges yes and no and keeps unknown |
| `SelectorParser.Parser.ParseExpr` | Selector.cpp:264-270 | succeeds exactly on the language, and the closure returned evaluates to the meaning of the unique tree |
| `SelectorParser.Parser.ParseOrExpr` | Selector.cpp:299-314 | the loop reads a disjunction and builds its closure |
| `SelectorParser.Parser.ParseAndExpr` | Selector.cpp:316-331 | the loop reads a conjunction and builds its closure |
| `SelectorParser.Parser.ParseNotExpr` | Selector.cpp:333-344 | NOT of unknown is unknown |
| `SelectorParser.Parser.ParseComparisonExpr` | Selector.cpp:346-441 | IS NULL, BETWEEN, IN, LIKE and relations, with NOT where the grammar has it |
| `SelectorParser.Parser.ParseIn` | Selector.cpp:383-401 | membership by the first equal item, unknown for a null left side |
| `SelectorParser.Parser.ParsePrimaryExpr` | Selector.cpp:443-492 | parentheses and literals |
| `SelectorText.CaseOfWords` | Selector.cpp:130-152 | keywords do not depend on case, and every other word is an identifier as spelled |
| `SelectorText.UpperDecides` | Selector.cpp:130-152 | two words are taken for the same in upper case if and only if they are the same letters up to case |
| `SelectorLaws.IntegerText` | Selector.cpp:117-128 | an integer text, with or without minus sign, is read as that integer |
| `SelectorLaws.FractionText` | Selector.cpp:117-128 | a text with a fraction is the number that its digits spell |
| `SelectorLaws.BlankText` | Selector.cpp:90-96 | a text has no lexemes exactly if it is spaces, tabs, line ends, vertical tabs and form feeds only |
| `SelectorText.SelectorTexts` | Selector.cpp:264-270 | a text is a selector if and only if its lexemes are the derivation of a tree, which is the only one |
| `SelectorText.WrittenTreeIsRead` | Selector.cpp:264-270 | a tree written down as text is read back as that tree |
| `SelectorText.Tokenize` | Selector.cpp:52-152 | the tokens of a text, or a refusal |
| `SelectorText.Parse` | Selector.cpp:505-514 | the empty text matches everything; any other is refused or compiled to the meaning of its tree |
| `SelectorLaws.RelationInText` | Selector.cpp:415-441 | from the text on: for every name, integer and property value, the six relations written with their symbols are the six relations of integers |
| `SelectorLaws.BetweenInText` | Selector.cpp:366-381 | from the text on: name BETWEEN a AND b is a <= v <= b, and NOT BETWEEN its opposite |
| `SelectorLaws.InInText` | Selector.cpp:383-401 | from the text on: name IN ('a', 'b') is equality with one of them |
| `SelectorLaws.NullInText` | Selector.cpp:352-364 | from the text on: IS NULL and IS NOT NULL tell whether the property is absent |
| `SelectorLaws.TextInText` | Selector.cpp:443-492 | from the text on: name = 'text' with doubled quotes is equality with the text |
| `SelectorLaws.TruthInText` | Selector.cpp:443-492 | from the text on: name = TRUE and name = FALSE are the property and its opposite |
| `SelectorLaws.LikeInText` | Selector.cpp:403-413 | from the text on: name LIKE 'pattern' is a match of the pattern, on text without line ends |
| `SelectorLaws.AndInText` | Selector.cpp:316-331 | from the text on: two comparisons joined by AND are both |
| `SelectorLaws.OrInText` | Selector.cpp:299-314 | from the text on: two comparisons joined by OR are either |
| `SelectorLaws.NotInText` | Selector.cpp:333-344 | from the text on: NOT before a comparison is its opposite |
| `SelectorText.Selector.Matches` | Selector.cpp:516-519 | only a definite yes matches |
| `Redelivery.DelayDoubles` | Consumer.cpp:367-377 | the delay is the smaller of backoff doubled per redelivery and the ceiling |
| `Redelivery.BackoffApplied` | Consumer.cpp:367-382 | in every run redelivery number n with backoff is due min(backoffMs * 2^(n-1), maxBackoffMs) after the clock reading, and one without backoff at once |
| `Redelivery.OnePlaceEach` | Consumer.cpp:252-409 | in every reachable state each message is in exactly one list at one position, scheduled, or finished |
| `Redelivery.CountWithinLimit` | Consumer.cpp:331-341 | deliveryCount is the number of redeliveries and at most the limit while the message circulates |
| `Redelivery.LimitBuries` | Consumer.cpp:338-361 | redelivery number limit + 1, and no earlier one, dead-letters the message |
| `Redelivery.DeadLetterBeforeRemoval` | Consumer.cpp:339-357 | the origin record is removed only after the append to the dead-letter queue |
| `Redelivery.WalkReturns` | Consumer.cpp:296-329 | a walk run to its end without backoff puts its messages back into each band in the order of the walk |
| `Redelivery.JoinedIsEnqueued` | Consumer.cpp:137-139 | what a transacted consumer has received is its ten-band queue read in delivery order: receiving is enqueueing |
| `RedeliveryLaws.MovesExactly` | Consumer.cpp:86-409 | in every reachable state each step moves exactly the messages it says, to the place it says, and changes no header but the one redelivered |
| `RedeliveryLaws.HighestThenFirst` | Message.h:366-378 | in every run the message received has the highest priority of those queued, and of these was queued first |
| `RedeliveryLaws.PushedGoes` | DeliveryScheduler.cpp:70-115 | a pushed message is queued if due at once and else scheduled |
| `RedeliveryLaws.KnownIfPushed` | Consumer.cpp:86-409 | in every run exactly the messages pushed have a place |
| `RedeliveryLaws.BurialsLogged` | Consumer.cpp:338-361 | after every run the log tells once of each burial, in the dead-letter queue or for want of one, and of the removal of the origin record once if the message is dead and persistent, and never otherwise |
| `RedeliveryLaws.OriginRemovedOnce` | Consumer.cpp:345-357 | the step that removes the origin record adds the one removal of a persistent message, and none of another |
| `RedeliveryLaws.UnlimitedNeverBuries` | Consumer.cpp:338-339 | without a limit no run buries a message |
| `RedeliveryLaws.CanReceive` | Consumer.cpp:137-175 | in every reachable state a consumer that is not in a walk can receive exactly if a message is queued |
| `RedeliveryLaws.CanGoOn` | Consumer.cpp:227-409 | a walk that has begun can go on, and a scheduled message can fire |
| `RedeliveryOrder.ListsInOrder` | Consumer.cpp:137-175 | in every run what a consumer has is in the order of receipt, or by priority and then receipt if it is transacted, and each band is in the order in which its messages were queued |
| `RedeliveryOrder.StepOrdered` | Consumer.cpp:227-409 | every step of pushes, receipts, recover, rollback, acknowledgements, commits and dead-lettering keeps that |
| `RedeliveryOrder.GoesBackFirstExactly` | Consumer.cpp:252-329 | in every run, whatever others do: of two messages received by one consumer that both went straight back, the one received first went back first if and only if they were recovered, or it was back before the other was received, or its priority is not lower |
| `RedeliveryOrder.ReceiveOrderKept` | Consumer.cpp:252-329 | under recover and rollback alike each band keeps the order of receipt: the one received first went back first and is ahead while both are queued in one band |
| `RedeliveryOrder.NoneGoesPast` | Consumer.cpp:252-329 | a message cannot go back past one that its consumer still has and received earlier, except by a higher priority under rollback |
| `RedeliveryOrder.RollbackByPriority` | Consumer.cpp:252-271 | a run in which rollback gives the message received second back first |
| `DurableNames.KeysExactly` | Destination.cpp:315-322 | two subscriptions share a key if and only if they are the same or their names meet at the separator in one of three ways |
| `DurableNames.DirsExactly` | Destination.cpp:256-264 | for names without path separators: one directory is the other or lies in it if and only if the subscriptions are the same or meet at a hyphen |
| `DurableNames.DirsCanNest` | Destination.cpp:256-264 | a name with a path separator puts one subscription's directory into another's |
| `DurableNames.DirsCanTurnBack` | Destination.cpp:256-264 | a name that turns back gives one directory to two directory names |
| `DurableNames.PlainNamesApart` | Destination.cpp:315-322 | names and client ids without the separator never meet |
| `DurableNames.KeysCanMeet` | Destination.cpp:315-322 | two subscriptions that share a key |
| `DurableNames.DirsCanMeet` | Destination.cpp:256-262 | two subscriptions with different keys and one directory name |
| `Durable.StepLinks` | Destination.cpp:243-366 | every call keeps consumers and subscriptions inverse to each other |
| `Durable.AlwaysLinked` | Destination.cpp:243-366 | so after every history, whatever the names |
| `Durable.HoldsWhatIsOwed` | Destination.cpp:63-82 | after any history of subscribing, unsubscribing, disconnecting, publishing, acknowledging and restarting, subscriptions with keys of their own and directories apart hold what they are owed, online or offline, through every selector change |
| `Durable.CollisionDisagrees` | Destination.cpp:256-273 | whenever two share a key or a directory, a history after which one holds the other's message |
| `Durable.NestedDisagrees` | Destination.cpp:336-344 | whenever one's directory is the other's or lies in it, a history in which deleting the one loses the other's message |
| `Durable.FaithfulExactly` | Destination.cpp:243-366 | however directory names are followed: a set of subscriptions holds what it is owed after every history if and only if no two share a key and none has its directory in another's |
| `Durable.FaithfulByName` | Destination.cpp:256-322 | for names without path separators, the same condition on the names alone |
| `Durable.PathsInNames` | Destination.cpp:256-344 | two names with a path separator in one that meet that condition and lose messages |
| `Durable.UnknownUntilNextConsumer` | Destination.cpp:324-327 | from a restart to its next consumer a subscription gains nothing and cannot be deleted |
| `Durable.OwedIsMatching` | Destination.cpp:63-82 | what a subscription is owed is the matching persistent messages, in order |
| `Durable.HoldsWhatIsSelected` | Destination.cpp:63-82 | after every history, whatever is published while a known subscription keeps its selector: it holds what it held and exactly the persistent messages that the selector accepts, in order |
| `Durable.OwedSelected` | Destination.cpp:63-82 | what it is owed are the ids of those messages, in order |
| `Durable.GainsExactly` | Destination.cpp:71-82 | a subscription gains a message if and only if it is known, the message is persistent, and the selector, if any, accepts it |
| `Durable.StoresExactly` | Consumer.cpp:226-250 | its storage is written under the same condition |
| `DurableTopic.Destination.CreateConsumer` | Destination.cpp:211-241 | a plain consumer affects no subscription |
| `DurableTopic.Destination.CreateDurableConsumer` | Destination.cpp:243-313 | refused exactly if the subscription under that key has a consumer; otherwise attached with the new selector, on the directory that its names give, shared or not |
| `DurableTopic.Destination.DeleteConsumer` | Destination.cpp:350-366 | its subscription goes offline and keeps what it holds |
| `DurableTopic.Destination.DeleteSubscription` | Destination.cpp:324-347 | the consumer is detached, the directory wiped with everything below it, whoever uses that, and the subscription forgotten |
| `DurableTopic.Destination.Restart` | Destination.cpp:251-284 | the registry is gone and the directories stay |
| `DurableTopic.Destination.Save` | Destination.cpp:63-82 | in whatever order consumers and subscriptions are visited, the whole state is that of one publication |
| `DurableTopic.Destination.Push` | Consumer.cpp:226-250 | a consumer stores for the subscription it is attached to, and only for that, if and only if the message is persistent and its selector, if any, accepts it |
| `DurableTopic.Destination.PersistOffline` | Destination.cpp:198-209 | subscriptions without a consumer store the message themselves |
| `DurableTopic.Destination.AppendTo` | LinearStorage.cpp:212-222 | the record goes behind those that this storage has seen in its file, opened or made at the first write |
| `DurableTopic.Destination.Acknowledge` | LinearStorage.cpp:244-263 | one record of the subscription is removed |

## Left out

- BTreeIndex.Index.Set: nodes are values with identities, parent and index fields; node arrays updated in place, the cached begin iterator and SIMD search are not captured.
- BTreeIndex.Index.Erase: the same; `join`, tree splitting, range erase and serialisation are not used by the storage and not modelled.
- PriorityQueue.Queue.Enqueue: strict priority and a complete mask are stated for calls that do not overlap only; they are false otherwise.
- FreeList.ListSafety: sequentially consistent memory; fewer than 2^31 threads, as the 32-bit word requires.
- Semaphore.SemaphoreSafety: `waitMany` and the spinning count are left out; the kernel semaphore is a counter.
- Codec.RoundTrip: the JSON format older than magic 1 and the JSON inside the property block are opaque.
- Storage.Storage.Append: I/O errors and partial writes are left out; offsets are unbounded instead of 64-bit.
- TransactionStorage.StorageIsExact: a crash between a COMMIT line and the append loses that batch; an append interrupted in the middle of a batch and a log line written in part are not modelled; log lines are records instead of text split at bars.
- Scheduler.SleepsNoLongerThanNeeded: the two clock reads before a wait are taken as one; the version counter is unbounded instead of 64-bit.
- Redelivery.DelayDoubles: doubles are taken as exact, which they are up to 2^53.
- Redelivery.CountWithinLimit: for one queue with a fixed policy, per message instance; replay of stored records into a queue makes a new instance.
- SelectorMeaning.OrCompiles: SQL NULL rules for relations, integer-to-double rounding and literal overflow are not claimed: the code returns plain booleans there.
- SelectorText.Parse: the values of number texts are exact; their overflow and rounding in 64-bit integers and doubles is not modelled.
- SelectorMeaning.LikeToRegex: regular expressions are modelled for the shapes that the translation produces.
- DurableTopic.Destination.Save: transacted sends to topics are left out.
- Durable.HoldsWhatIsOwed: the topic starts without directories of durable subscriptions, and nobody else writes below its path; records of storages that share a file are taken as equally long, and an open file outlives its wiped directory, as on Linux.
- Durable.FaithfulExactly: how a directory name is parsed and followed is a parameter; names that the file system refuses are I/O errors, which are left out.
- The remainder of concurrentqueue.h (block index, implicit producers, memory orderings): used as a queue that is FIFO per enqueuing thread.
- Cumulative acknowledgement, the batched removals of DUPS_OK_ACKNOWLEDGE and exactly-once delivery.
- Producer options, message ids and timestamps: assignments without an invariant of their own.
- ProducerCommit.Producer.Commit: staged messages are values here, and no other thread touches the transaction between its steps.
- SessionCommit.Session.Commit: the producers of one destination; producers of other destinations have another buffer and storage.
- SessionCommit.Session.CloseProducer: deletion with the last reference to the producer; one that the application still refers to and uses is not modelled.
- RedeliveryOrder.ReceiveOrderKept: priorities are those with which the messages were queued; an application that changes the priority of a message it has received is not modelled.
- Thread start and join of the storage worker, logging, paths, connections, sessions, exchanges and the other message bodies.
