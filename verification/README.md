# Concurrency and protocol exercises, verified

Dafny models of five programs of the repository and proofs of what they promise.

**The external merge sort (LAB_6).** A file of records is cut into chunks; worker threads,
synchronised by two barriers and a task table under a mutex, sort the blocks of a chunk and
merge them in rounds; the sorted chunks are then merged pairwise in the file. `Records`,
`RunMerging`, `Runs`, `BlockTable` and `ChunkMerge` hold the data, the array code and what it
computes; `Chunking` the arithmetic of the chunk loop; `WorkerProtocol` the threads as a
transition system for any number of workers, blocks and chunks; `WorkerInvariant`,
`WorkerSteps` and `WorkerRuns` the invariant and why every step keeps it; `WorkerSafety`
races, barriers, deadlock and termination; `WorkerClaims` that every block and pair is claimed
by exactly one worker; `SortIndex` the result for the whole file.

**The resizable queue (LAB_5.2).** `RingBuffer` is the ring as a value, `SharedQueue` the
object its threads share, one method per section under the mutex, and `QueueMonitor` any
number of producers and consumers with timed waits, spurious wakeups, resizing and shutdown;
`QueueShutdown` shows that a stopping program gets to the end of its threads.
`MessageHash` is the message and its checksum, which LAB_4 computes in the same way.

**The semaphore queue (LAB_4).** `SemaphoreQueue` has the unchecked push and pop and the
processes around them, with signals that may arrive at any point; `SemaphoreFailures` what goes
wrong over whole runs, and exactly when, and `SemaphoreShutdown` what a process told to stop
still does.

**Record update (LAB_7).** `RecordUpdate` is the read, edit, lock, compare, write-or-retry
protocol of PUT, together with GET, for any number of clients; `PutCommand` is one PUT as a
program, with the other clients changing the file wherever the locks let them; `LostChange` is
a run in which a PUT takes back what another client has changed.

**The line protocol (LAB_8).** `LineProtocol` sends and reads lines over a byte stream,
`LineServer` takes a line apart in its buffer and answers it, `CommandAnswers` says what each
command is answered with, and `Lockstep` sets the client's reading against the server's
writing, command by command and session by session. Characters stand for bytes.

Concurrent programs are transition systems: a step is what one thread or process does between
two points at which others can interfere, `Feasible` says that a list of steps can be taken
one after the other, and the theorems about runs hold for every such list. A barrier opens
when as many threads wait at it as it was initialised for, wherever they wait; arriving is part
of the step before. A merge reads its two runs in one step and writes them back in another,
`qsort` writes its result in one step: `RangesApart` is why nobody can tell the difference.

Where the code and what it is meant to do part ways, the model follows the code:

- The early merge rounds give worker `t` pair `t` and no other, and the table is compacted as
  if all pairs had been merged. The file is sorted for every input exactly if
  `blocks / 2 <= threads` (`SortsEveryFileIff`), while the command line demands
  `blocks >= 4 * threads` (`AcceptedNeverSorts`).
- A resize to exactly the current load leaves `tail` one past the end of the buffer, and unless
  the program is stopping some run writes there (`ResizeSafeIff`, `CrashReachable`).
- A wait on the semaphore MUTEX that a signal interrupts while the process is stopping returns
  as if it had been granted; mutual exclusion holds throughout a run exactly if that never
  happens (`AlwaysExclusiveIff`), it can happen (`OverlapReachable`), and each time there is
  room for one more process from then on (`RoomGrows`).
- Every token a stopping process has taken and not used is lost. Once these are as many as the
  queue has slots, nothing is pushed or popped any more, whoever is started (`DeadIff`). A
  signal ends a wait only if it arrives inside it, so a process told to stop a moment before
  waits for ever with the others (`StuckIff`); a run gets there (`StandstillReachable`).
- A PUT that the user applies on top of a newer record writes the record made from the older
  one; fields the user left alone go back too (`Put`, `OverwriteRun`).
- A blank line is not answered, and after a leading space HELP and INFO are answered in full
  but read as one line. Of a message of 510 bytes the line feed is lost, which does no harm as
  the reader's buffer is full there; a longer one is sent from beyond the buffer. These are the
  commands that fall out of step (`InStepIff`).

## Model

| member | source | states |
|---|---|---|
| RunMerging.MergePermutes | LAB_6/src/sort_index.c:134-148 | a merge, of any two runs, holds exactly their records |
| RunMerging.MergeSortedIff | LAB_6/src/sort_index.c:134-148 | the merge is sorted if and only if both runs were: it orders nothing that was disordered |
| RunMerging.MergeStable | LAB_6/src/sort_index.c:135-136 | ties go to the left run, so records with equal time marks keep their order |
| RunMerging.MergeIntoBuffer | LAB_6/src/sort_index.c:123-148 | the three merge loops fill the buffer with the merge of the two adjacent runs |
| RunMerging.MergeTwoRuns | LAB_6/src/sort_index.c:122-152 | afterwards the slice of the two runs holds their merge, and the rest of the array is as before |
| BlockTable.BlocksFlat | LAB_6/src/sort_index.c:347-353 | the blocks laid end to end are the chunk |
| BlockTable.BlocksEndAtEnd | LAB_6/src/sort_index.c:339-353 | the block sizes add up to the chunk, remainder included |
| BlockTable.BlocksBalanced | LAB_6/src/sort_index.c:350 | with at least one record per block no block is empty and sizes differ by at most one |
| BlockTable.SortContext.InitBlockMap | LAB_6/src/sort_index.c:330-356 | lays the table out over the chunk; gives up exactly on a non-empty chunk with fewer records than blocks; an empty chunk leaves no active block |
| BlockTable.FirstFreeUnique | LAB_6/src/sort_index.c:158-164 | the entry a claim returns is determined: the first free one |
| BlockTable.SortContext.GetFreeBlockForSort | LAB_6/src/sort_index.c:154-168 | takes the first free block and marks it busy, or reports none and changes nothing |
| BlockTable.SortContext.GetFreePairForMerge | LAB_6/src/sort_index.c:170-184 | the same among the pairs of a late round |
| BlockTable.SortContext.ResetPairs | LAB_6/src/sort_index.c:266-271 | frees every pair of the round and nothing else |
| BlockTable.SortContext.CompactTable | LAB_6/src/sort_index.c:243-261 | the loop over the table, writing behind its reading position, makes entry `p` the sum of the old entries `2p` and `2p + 1`, carries an odd last one, and ceil-halves the count |
| BlockTable.CompactFits | LAB_6/src/sort_index.c:299-317 | compaction keeps the table a contiguous tiling of unchanged total size, whichever pairs were merged |
| Runs.RoundCountOfPower | LAB_6/src/sort_index.c:219-321 | from `2^k` active blocks exactly `k` rounds are left |
| Runs.RoundsPermute | LAB_6/src/sort_index.c:219-321 | the rounds only rearrange, for any number of threads |
| Runs.RoundsSort | LAB_6/src/sort_index.c:219-321 | sorted runs become one sorted run if the first round has a worker for every pair |
| Runs.RoundsSortedOnlyIf | LAB_6/src/sort_index.c:227-239 | a sorted result needs sorted runs before the first round and after it |
| Runs.RoundsStable | LAB_6/src/sort_index.c:219-321 | under the same condition equal time marks keep their order |
| WorkerInvariant.AllDone | LAB_6/src/sort_index.c:200-216 | when every worker has found nothing left to claim, every block or pair is done |
| WorkerSteps.WorkKeepsInv | LAB_6/src/sort_index.c:198-325 | each step of a worker keeps the invariant: table and memory describe the same runs, claims and workers correspond one to one, the rounds still to come lead to the same result |
| WorkerRuns.OpenWorkersKeepsInv | LAB_6/src/sort_index.c:216-319 | so does the opening of the workers barrier, at each of its five places |
| WorkerRuns.StepKeepsInv | LAB_6/src/sort_index.c:186-328 | so does every step of workers, main and barriers |
| WorkerRuns.RunKeepsInv | LAB_6/src/sort_index.c:186-328 | so does every run |
| WorkerSafety.RangesApart | LAB_6/src/sort_index.c:206-239 | the ranges two workers sort, read or write are disjoint in every reachable state |
| WorkerSafety.RaceFree | LAB_6/src/sort_index.c:154-320 | no block and no pair is held twice, and while worker 0 rewrites the table or the number of active blocks all others are past using them |
| WorkerClaims.ClaimedOnce | LAB_6/src/sort_index.c:154-213 | a step of a worker takes an entry of the table only from free to busy to done, and changes its owner only by claiming it |
| WorkerClaims.AtMostOneClaim | LAB_6/src/sort_index.c:154-213 | over any run within a stage an entry is claimed at most once, by the worker that owns it from then on |
| WorkerClaims.ExactlyOneClaim | LAB_6/src/sort_index.c:198-297 | after any run whatever: between the barrier that starts a stage and the one that ends it each block, or each pair of a late round, is claimed by exactly one worker, once, and done |
| WorkerSafety.BarrierAgreement | LAB_6/src/sort_index.c:216-319 | workers waiting at the workers barrier wait at the same place of the same round, with the same branch taken |
| WorkerSafety.BranchOfRound | LAB_6/src/sort_index.c:225-264 | a round with at least as many pairs as workers gives worker `t` pair `t`, one with fewer has its pairs claimed |
| WorkerSafety.ControlAlignment | LAB_6/src/sort_index.c:192-323 | main's start of a chunk and its shutdown meet the workers at the top of their loop, its end of a chunk at the bottom |
| WorkerSafety.NoDeadlock | LAB_6/src/sort_index.c:186-328 | in every reachable state that is not final somebody can go on |
| WorkerSafety.StepDecreases | LAB_6/src/sort_index.c:186-328 | every step makes a lexicographic measure of naturals smaller |
| WorkerSafety.NoEndlessRun | LAB_6/src/sort_index.c:186-328 | no infinite sequence of steps is a run |
| WorkerSafety.Completes | LAB_6/src/sort_index.c:612-682 | every run can be continued to the end, or to the exit on a chunk too small |
| WorkerSafety.EveryRun | LAB_6/src/sort_index.c:186-328 | for the state after any run whatever: no range touched and no block or pair held twice, nobody uses the table or the number of active blocks while worker 0 rewrites it, agreement at both barriers, no deadlock |
| SortIndex.ChunkPermuted | LAB_6/src/sort_index.c:615-674 | a processed chunk is a permutation of what it was |
| SortIndex.ChunkSorted | LAB_6/src/sort_index.c:615-674 | it is sorted if `blocks / 2 <= threads` |
| SortIndex.RoundsPerChunk | LAB_6/src/sort_index.c:219-321 | when main passes the end of a chunk with `2^k` blocks, there have been `k` rounds |
| SortIndex.AbortsIff | LAB_6/src/sort_index.c:342-345 | a run ends in the exit exactly if some chunk has fewer records than blocks |
| SortIndex.FileOutcome | LAB_6/src/sort_index.c:612-682 | for every worker count and interleaving every chunk is processed as it should be, and merging the results gives a permutation of the file, sorted if `blocks / 2 <= threads` |
| SortIndex.WholeFile | LAB_6/src/sort_index.c:612-682 | the same from the data of the file and the memory size |
| SortIndex.FinishFile | LAB_6/src/sort_index.c:684-697 | merging the chunks in the file, whatever run has processed them, leaves that result in the file and anything behind it untouched |
| SortIndex.MergeFile | LAB_6/src/sort_index.c:612-697 | from the table of the chunk loop to the finished file: a permutation of the data, sorted if `blocks / 2 <= threads` |
| SortIndex.ChunkUnsorted | LAB_6/src/sort_index.c:227-261 | with more pairs than workers a descending chunk is never sorted |
| SortIndex.SortsEveryFileIff | LAB_6/src/sort_index.c:227-261 | every run sorts every file of the given chunk sizes if and only if `blocks / 2 <= threads` |
| SortIndex.AcceptedNeverSorts | LAB_6/src/sort_index.c:25-53 | no command line that passes the checks meets that condition |
| Chunking.PowerOfTwoIff | LAB_6/src/sort_index.c:21-23 | the bit trick accepts exactly the powers of two |
| Chunking.AcceptsIff | LAB_6/src/sort_index.c:25-53 | accepted are whole pages of memory, a power of two of blocks, and at least one thread with four blocks for each |
| Chunking.AcceptedExample | LAB_6/src/sort_index.c:25-53 | a command line that is accepted, and one rejected for each reason but the number of threads |
| Chunking.MaskRoundsDown | LAB_6/src/sort_index.c:629 | masking with the page size minus one gives the last page start not after the offset |
| Chunking.ChunksFlat | LAB_6/src/sort_index.c:615-674 | the chunks tile the data |
| Chunking.ChunkSizes | LAB_6/src/sort_index.c:616-621 | all chunks are full but the last, which is not empty |
| Chunking.ChunkCount | LAB_6/src/sort_index.c:494 | the loop makes exactly as many chunks as table entries were reserved |
| Chunking.WindowFor | LAB_6/src/sort_index.c:623-631 | the mapped window starts on a page, as late as possible, and covers just the gap and the chunk |
| Chunking.PlanChunks | LAB_6/src/sort_index.c:612-674 | the chunk loop leaves a table that describes the chunks of the file, each mapped by such a window |
| ChunkMerge.MergeBuffers | LAB_6/src/sort_index.c:393-408 | the merge loops over two buffers compute the merge |
| ChunkMerge.Positions | LAB_6/src/sort_index.c:612-624 | record `i` stands behind a header of 8 bytes and `i` records of 16 |
| ChunkMerge.MergeTwoSortedChunks | LAB_6/src/sort_index.c:358-424 | the two chunks' place in the file holds their merge, the rest of the file is as before |
| ChunkMerge.MergePass | LAB_6/src/sort_index.c:430-447 | one pass merges each pair, carries an odd last chunk, and leaves a table of contiguous chunks |
| ChunkMerge.MergeSortedChunks | LAB_6/src/sort_index.c:426-451 | sorted chunks end as one sorted permutation with equal time marks in their old order, whatever their number; anything behind them is untouched |
| RingBuffer.PushAppends | LAB_5.2/src/queue.c:124-127 | a push into a ring with room adds at the end, overwrites nothing unread and keeps `tail == (head + load) mod size` |
| RingBuffer.PopTakesOldest | LAB_5.2/src/queue.c:160-163 | a pop takes the oldest message and keeps the others |
| RingBuffer.ResizeKeeps | LAB_5.2/src/queue.c:195-208 | a resize keeps all messages in order; the ring is proper afterwards if and only if there is room left |
| SharedQueue.Queue.TryPush | LAB_5.2/src/queue.c:107-135 | one pass of push waits, refuses, or appends the message; the first two change nothing; only a push that would write past a ring left by a resize to exactly the load is excluded |
| SharedQueue.Queue.TryPop | LAB_5.2/src/queue.c:141-171 | one pass of pop waits, gives up, or takes the oldest message, in a proper ring and in one so left; the first two change nothing |
| SharedQueue.Queue.ResizeTo | LAB_5.2/src/queue.c:174-219 | refuses sizes outside 1 to 100 or below the load; else keeps the messages, and the ring is proper afterwards exactly if the new size is not the load |
| SharedQueue.Queue.CopyLive | LAB_5.2/src/queue.c:195-199 | the copy loop brings the messages to the front in order |
| SharedQueue.PushDecides | LAB_5.2/src/queue.c:107-122 | a producer waits exactly while a running program's queue is full and is refused exactly once the program is stopping |
| SharedQueue.PopDecides | LAB_5.2/src/queue.c:141-160 | a consumer waits exactly while a running program's queue is empty; of a stopping one it still takes the oldest message unless its wait has timed out |
| SharedQueue.ResizeAcceptedIff | LAB_5.2/src/queue.c:175-186 | accepted are sizes from 1 to 100 that hold all messages |
| QueueMonitor.PushKeepsInv | LAB_5.2/src/queue.c:103-136 | a push loses no wakeup, message or count; it writes outside the buffer exactly if it goes through in a ring a resize has filled |
| QueueMonitor.PopKeepsInv | LAB_5.2/src/queue.c:138-172 | a pop loses no wakeup, message or count |
| QueueMonitor.ResizeKeepsInv | LAB_5.2/src/queue.c:174-219 | neither does a resize; an accepted one leaves nobody asleep, a refused one changes nothing |
| QueueMonitor.EveryRun | LAB_5.2/src/queue.c:103-219 | in every run until such a write: accepted messages equal popped ones followed by the ring, no wakeup is lost while the program runs, the threads' counters add up to the queue's, messages made are those accepted, still in a producer's hands, or given up, which none is while the program runs, and what a consumer gets passes the hash check and is no sentinel, or is the empty message of a stopping program |
| QueueMonitor.SomebodyIsComing | LAB_5.2/src/queue.c:107-117 | while there are messages and a consumer sleeps unsignalled, another is awake on its way to them, without any timeout; likewise for slots and producers |
| QueueMonitor.NeverCrashes | LAB_5.2/src/queue.c:103-219 | a run in which no resize leaves the queue exactly full never writes outside the buffer |
| QueueMonitor.ResizeSafeIff | LAB_5.2/src/queue.c:204-208 | after an accepted resize all such runs are safe if and only if the new size is not the load or the program is stopping |
| QueueMonitor.CrashFromSkewed | LAB_5.2/src/queue.c:124-125 | in a running program with a ring of that kind a producer about to push writes there, after one pop if the queue is full |
| QueueMonitor.CrashReachable | LAB_5.2/src/queue.c:204-208 | from the start of the program some run with one such resize writes past the end of the buffer |
| QueueShutdown.StepsArePaidFor | LAB_5.2/src/producer.c:12-28 | once the program is stopping, and nobody starts a thread, each step of a thread uses up one of the few it has left, whatever resizes and broadcasts come in between |
| QueueShutdown.CanGoOn | LAB_5.2/src/consumer.c:11-39 | no thread that is not done is blocked: it can go on, if need be after its timeout |
| QueueShutdown.TimeoutGivesUp | LAB_5.2/src/queue.c:146-158 | of a stopping program's queue a consumer whose wait times out takes nothing, one woken in another way the oldest message |
| QueueShutdown.Finishes | LAB_5.2/src/queue.c:107-122 | a stopping program can always be brought to the end of all its threads |
| QueueShutdown.ShutdownEnds | LAB_5.2/src/queue.c:141-158 | after any run without such a write and the order to stop: at most four more steps for each thread, each can go on until it is done, and when all are, the messages produced are those consumed and those still in the ring |
| MessageHash.MixWraps | LAB_5.2/src/queue.c:28-35 | one round on the 64-bit word is one step of the polynomial, modulo `2^64` |
| MessageHash.CalculateDJB2 | LAB_5.2/src/queue.c:26-38 | the wrapping loop, cut to 16 bits, is the base-33 polynomial modulo 65536, for every length |
| MessageHash.HashInFields | LAB_5.2/src/queue.c:27-37 | the checksum in the fields: 5381, the type, two zeros, the size and the data, in this order, modulo 65536 |
| MessageHash.PolyWeighs | LAB_5.2/src/queue.c:33-35 | each byte weighs 33 times what the next one does |
| MessageHash.ShortestHash | LAB_5.2/src/queue.c:27-37 | the checksum of a message of size 0 as a number |
| MessageHash.OneByteChanges | LAB_5.2/src/queue.c:33-35 | changing any one byte changes the hash |
| MessageHash.TwoBytesUnnoticedIff | LAB_4/src/ipc_utils.c:130-134 | changing two neighbouring bytes goes unnoticed exactly if the changes cancel |
| MessageHash.CorruptionDetected | LAB_4/src/consumer.c:27-32 | a genuine message with the type or one byte of the data changed, and nothing else, fails the check |
| MessageHash.KindCounts | LAB_5.2/src/queue.c:28 | every change of the type is detected |
| MessageHash.DataCounts | LAB_5.2/src/queue.c:33-35 | so is every change of a byte of data, the one behind the last included |
| MessageHash.PaddingIgnored | LAB_5.2/src/queue.c:33-37 | the padding and the hash field itself do not enter the checksum |
| MessageHash.GenuineIsNotSentinel | LAB_5.2/src/consumer.c:21-24 | no genuine message is the all-zero sentinel |
| MessageHash.CreateRandomMessage | LAB_5.2/src/queue.c:40-52 | a created message is genuine, padded with zeros to a multiple of four bytes, within the buffer |
| SemaphoreQueue.UncheckedQueue.QueuePush | LAB_4/src/ipc_utils.c:159-167 | changes the fields as written, and appends the message if there is room |
| SemaphoreQueue.UncheckedQueue.QueuePop | LAB_4/src/ipc_utils.c:172-182 | changes the fields as written, and returns the oldest message if there is one |
| SemaphoreQueue.UncheckedIsSafe | LAB_4/src/producer.c:17-23 | a producer in the critical section finds a free slot, a consumer a message, and nobody else is inside |
| SemaphoreQueue.StepKeepsInv | LAB_4/src/ipc_utils.c:80-113 | every step but the interrupted wait on MUTEX keeps the token balance, the order of messages and the exclusion |
| SemaphoreQueue.RoomGrows | LAB_4/src/ipc_utils.c:92-98 | over any run each interrupted wait on MUTEX adds one, for good, to the processes the critical section has room for, and nothing else changes that number |
| SemaphoreQueue.EveryRun | LAB_4/src/consumer.c:11-35 | for any number of processes and signals the critical section has room for one process and one more for every interrupted wait on MUTEX; with none, tokens in the semaphores, in hand and leaked account for every slot, one process at a time is inside, messages come out as they went in and pass the check |
| SemaphoreQueue.ExclusionIff | LAB_4/src/ipc_utils.c:92-98 | a step keeps mutual exclusion if and only if it is not the interrupted wait on MUTEX |
| SemaphoreFailures.AlwaysExclusiveIff | LAB_4/src/ipc_utils.c:92-98 | mutual exclusion holds throughout a run if and only if the run contains no such step |
| SemaphoreFailures.OverlapReachable | LAB_4/src/producer.c:17-23 | from the start of the program some run has two processes in the critical section |
| SemaphoreQueue.NoDeadlock | LAB_4/src/producer.c:12-29 | with a live producer and a live consumer, and fewer leaked tokens than slots, somebody can go on without a further signal |
| SemaphoreQueue.StuckIff | LAB_4/src/ipc_utils.c:90-98 | with a live producer and a live consumer the system is stuck if and only if the leaked tokens amount to the queue and everybody left waits for an item without a signal having found it asleep; being told to stop before the wait does not help |
| SemaphoreFailures.DeadIff | LAB_4/src/producer.c:17-18 | nothing is ever pushed or popped again, whatever is still forked or signalled, if and only if every token is leaked or held by a process told to stop before it has checked |
| SemaphoreFailures.LostForever | LAB_4/src/producer.c:17-18 | over every run from such a state nothing is pushed, popped or won back |
| SemaphoreFailures.StandstillReachable | LAB_4/src/consumer.c:11-14 | from the start of the program some run, with no wait on MUTEX interrupted, leaves a live producer and a live consumer waiting for ever, the producer told to stop just before its wait |
| SemaphoreQueue.FewExitsNoDeadlock | LAB_4/src/producer.c:18-18 | each leak costs a process, so fewer exits than slots cannot cause a deadlock |
| SemaphoreShutdown.StoppedProcess | LAB_4/src/consumer.c:11-35 | a process told to stop takes at most six more steps, in any run |
| SemaphoreShutdown.LastAct | LAB_4/src/producer.c:17-23 | it pushes or pops once more at most, and only if it had passed its test before |
| RecordUpdate.HoldersApart | LAB_7/src/locks.c:6-14 | two clients that hold locks on one record are both reading |
| RecordUpdate.GrantedIff | LAB_7/src/locks.c:6-14 | a lock is granted exactly if no other client writes the record nor, if it is to be written, reads it |
| RecordUpdate.CommandStarts | LAB_7/src/commands.c:47-51 | a command goes on to lock the record exactly if its number is one of the file's |
| RecordUpdate.AnswerDecides | LAB_7/src/commands.c:95-99 | the user's no ends a PUT that has written nothing and holds no lock, the yes sends it back to the comparison |
| RecordUpdate.ChangeIsPaidFor | LAB_7/src/commands.c:89-94 | a record that changed between two points of the history, and not by this client, cost another client a commit |
| RecordUpdate.StepKeepsInv | LAB_7/src/commands.c:47-110 | every step of GET and PUT keeps history, locks and clients consistent |
| RecordUpdate.EveryRun | LAB_7/src/commands.c:31-110 | in every run each commit replaced exactly the value its client had last read or been shown, by another one, retries never exceed the other clients' commits to the record, and a GET holds what the record is |
| RecordUpdate.NoLostUpdate | LAB_7/src/commands.c:89-103 | of two successive commits to a record the later was based on what the earlier wrote |
| RecordUpdate.RunLosesNoUpdate | LAB_7/src/commands.c:47-110 | the same for every run |
| RecordUpdate.NoDeadlock | LAB_7/src/commands.c:57-108 | no client waits while holding a lock, so one of those not waiting for their user can go on |
| PutCommand.SharedFile.Put | LAB_7/src/commands.c:47-110 | against any interference the locks allow: a save is one commit, the last, replacing the value last seen by the edited form of the one first read, which is that value with the same edits if and only if the fields left alone have not changed; unchanged means that the edits would make of the record what it is; cancelled means a conflict the user said no to; undisturbed edits are saved if and only if they change something; each retry is matched by a commit of another client |
| PutCommand.EditedFields | LAB_7/src/commands.c:64-77 | an empty answer leaves a field alone, of another one the first 79 bytes or the number modulo 256 are taken |
| PutCommand.OnTopIff | LAB_7/src/commands.c:64-77 | the edited forms of two records are the same if and only if the records agree in the fields left alone |
| PutCommand.OthersChangeLost | LAB_7/src/commands.c:94-103 | two records and edits for which they are not |
| LostChange.OverwriteRun | LAB_7/src/commands.c:47-110 | for any such change and edits some run of two clients ends with the edited older record written over the newer one, which is the newer one with the same edits if and only if the fields left alone agree |
| LostChange.AddressGoesBack | LAB_7/src/commands.c:94-103 | a run that writes the old address over the new one |
| LineProtocol.FitsIff | LAB_8/src/protocol.c:36-48 | the bytes sent are the message and CR LF if and only if it has at most 509 bytes, and they come from inside the buffer if and only if it has at most 510 |
| LineProtocol.Connection.SendLine | LAB_8/src/protocol.c:36-48 | the whole buffer goes out however the writes are split |
| LineProtocol.Connection.ReadLine | LAB_8/src/protocol.c:19-34 | the read loop returns the bytes up to the line feed without carriage returns, at most one less than the buffer, and leaves the rest on the stream |
| LineProtocol.ReadsClean | LAB_8/src/protocol.c:28-30 | nothing read contains CR or LF |
| LineProtocol.ReadSplits | LAB_8/src/protocol.c:19-34 | for any input: the line is what stands before the first line feed, if there is room, without its carriage returns, else as much as there is room for or there is; the rest stays on the stream |
| LineProtocol.ReadLongest | LAB_8/src/protocol.c:24-33 | a line of 510 bytes, whose line feed is lost, fills the reader's buffer just there |
| LineProtocol.RoundTripIff | LAB_8/src/protocol.c:19-48 | a message comes back as sent, as a C string, and nothing of what follows is touched, if and only if it is free of CR, LF and NUL and has at most 510 bytes |
| LineProtocol.FramingRoundTrip | LAB_8/src/protocol.c:19-48 | any list of such messages comes back as that list |
| LineServer.ToUpperInPlace | LAB_8/src/protocol.c:68-74 | exactly the letters up to the terminating NUL are capitalised |
| LineServer.UpperMeans | LAB_8/src/protocol.c:68-74 | capitalising turns a small letter into the capital 32 places before it, leaves every other byte, and leaves no small letter |
| LineServer.SpellsIff | LAB_8/src/protocol.c:147-158 | a word is taken for a command if and only if it spells it letter by letter in either case |
| LineServer.SkipSpaces | LAB_8/src/protocol.c:134-135 | stops at the first byte of the string that is not a space |
| LineServer.TakeArgument | LAB_8/src/protocol.c:139-145 | cuts the line after its first word in place and finds what follows |
| LineServer.DispatchCommand | LAB_8/src/protocol.c:133-169 | cutting up the line in its buffer and sending comes to the replies that `CommandAnswers` describes, and to going on after all but QUIT |
| LineServer.TakesApart | LAB_8/src/protocol.c:134-145 | a command and its argument, put together with any spacing, are taken apart into the same two |
| CommandAnswers.EchoesBack | LAB_8/src/protocol.c:83-89 | ECHO, in any capitalisation and spacing, is answered with its argument |
| CommandAnswers.EchoNeedsArgument | LAB_8/src/protocol.c:84-87 | ECHO without an argument is answered with an error |
| CommandAnswers.InfoListsServer | LAB_8/src/protocol.c:92-119 | INFO is answered with its heading, the name of the server, its port, start, uptime and process number, in this order, and a dot |
| CommandAnswers.HelpListsCommands | LAB_8/src/protocol.c:122-129 | HELP is answered with its heading, a line for each of the four commands, and a dot |
| CommandAnswers.QuitSaysGoodbye | LAB_8/src/protocol.c:158-161 | QUIT is answered with a goodbye, and ends the session |
| CommandAnswers.OthersUnknown | LAB_8/src/protocol.c:162-166 | any other word is answered with an error that ends in that word in capitals |
| CommandAnswers.BlankUnanswered | LAB_8/src/protocol.c:134-137 | a blank line is not answered and does not end the session |
| Lockstep.AnswerFits | LAB_8/src/protocol.c:83-129 | replies to words of at most 488 bytes can be sent; HELP and INFO are a heading, indented lines and a dot, all others one line |
| Lockstep.UnknownFitsIff | LAB_8/src/protocol.c:162-166 | 488 bytes is the longest unknown command whose reply can be sent |
| Lockstep.ReceiveResponse | LAB_8/src/client.c:31-63 | the client's loops over one buffer take the first line, and of a listing all lines up to the dot, an empty line or one that is not indented |
| Lockstep.EmptyIsLost | LAB_8/src/client.c:35-40 | an empty line, or nothing, instead of an answer makes the client exit |
| Lockstep.MoreReads | LAB_8/src/client.c:48-62 | after the heading it takes the indented lines and one line more, the first that is not indented, whatever it says |
| Lockstep.ReceivesListing | LAB_8/src/client.c:48-62 | of a listing the client takes everything if it expects one, else only the heading |
| Lockstep.InStepIff | LAB_8/src/client.c:12-63 | for every command the client can type, it takes exactly the lines the server sends if and only if the command is not blank, nor HELP or INFO after a space, nor too long to be sent or answered |
| Lockstep.MisreadInputs | LAB_8/src/client.c:12-29 | a blank line and HELP after a space are commands that fail |
| Lockstep.EarlyIsLate | LAB_8/src/client.c:31-63 | what the client takes does not depend on when the bytes behind it arrive |
| Lockstep.ConverseIff | LAB_8/src/client.c:97-128 | over a conversation every command gets its own answer and nothing else if and only if all commands are in step and only the last makes the server quit |
| Lockstep.SessionIff | LAB_8/src/server.c:21-53 | the same for a session that starts with the greeting |
| Lockstep.QuitEndsSession | LAB_8/src/client.c:121-127 | the client sends nothing after a bare QUIT in either case, and stops early for nothing else but a failure |

## Left out

- LAB_1, LAB_2, LAB_3: directory and environment plumbing; the one-slot signal handshake of LAB_3 can lose reports, so there is no run-level guarantee to prove.
- LAB_5.1: the ring is that of LAB_5.2; its resize re-initialises semaphores that threads may be blocked on.
- LAB_4/src/hash.c, LAB_4/src/queue.c, LAB_4/src/semaphore.c: not built, and written against other types.
- Operating system: files, mmap, msync, sockets, fork, thread creation and join are atomic steps on sequences and arrays, and their failures are not modelled; nor are malloc failures, thread cancellation, the kill commands of LAB_5.2 and SIGKILL in LAB_4.
- Numbers: `time_mark` is a real, without NaN and infinities; int overflow of `4 * threads` and of the message counters is not modelled. The checksum does wrap.
- `qsort`: any sorted permutation, stable or not, so only the merges are proved stable, not the sorting of a block.
- WorkerSafety.Completes: says that a run can always be continued to its end; that a scheduler does so is its business.
- QueueShutdown.ShutdownEnds: the cancellation of threads that follows a tenth of a second after the broadcast is not modelled.
- QueueMonitor.ResizeSafeIff: the limit of ten threads of each kind is not modelled; the run to the write may start one more of each.
- QueueMonitor.EveryRun: says nothing about what follows a write outside the buffer; `keep_running` is read once per section, and shutdown's broadcast may come at any time.
- QueueMonitor.NeverCrashes: excludes the resize to exactly the load, which `ResizeSafeIff` shows to be unsafe.
- SharedQueue.Queue.TryPush: excludes the push that writes past the end of the buffer.
- SemaphoreQueue.EveryRun: once a wait on MUTEX has been interrupted it states only how many processes may be inside; push and pop are atomic steps, which the exclusion justifies until then.
- SemaphoreQueue.StuckIff: a signal that finds a process asleep in a semaphore operation ends that operation unless it is granted first; that the kernel does so in the end is its business.
- SemaphoreFailures.DeadIff: the limit of ten processes of each kind is not modelled, a fork is always possible; nor is the parent, which waits for the processes it stops.
- MessageHash.CorruptionDetected: a changed size byte changes which bytes are hashed and is not covered.
- RecordUpdate.EveryRun: no concurrent ADD, which picks its record number before locking it; LST is a sequence of GETs. Records are compared by value, as `memcmp` does, so a record changed and changed back counts as unchanged; bytes behind a terminating NUL are not modelled.
- PutCommand.SharedFile.Put: the number typed for the semester is taken as read; what `atoi` makes of other text is not modelled.
- LineProtocol.Connection.SendLine: a message of more than 510 bytes makes the source read past its buffer; what it would send is not modelled.
- LineServer.DispatchCommand: for lines whose replies would overrun the line buffer, which the source does not exclude, nothing is stated: what lies there is unknown.
- Lockstep.SessionIff: commands are free of CR, LF and NUL; an exchange in which a side sends from beyond its buffer is undefined and counts as out of step; the time, uptime and process number in INFO are any texts of at most 64 bytes without CR and LF. The server serves each client in its own thread with nothing shared.
