# chain-socket, modelled and verified

This project models the hard parts of chain-socket and proves what they are for: the lock-free queue through
which `MsgHub` passes tasks between threads, the semaphore and blocking queue on top of it, the timer heap, and
the WebSocket code (masking, frames, SHA-1).

`dafny verify dfyconfig.toml` checks everything; it takes some minutes.

## How it is built

**The lock-free queue** (`Queue.h`, `BlockQueue.h`) is modelled as state machines. Every access to a shared
atomic variable, or to memory that other threads read, is one step; every thread has a program counter that
holds the locals that are live at that point; any number of threads take steps in any order. Atomics are
sequentially consistent. A module ending in `Runs` states what holds in every state that any run reaches.

- `FreeList`, `FreeListRuns`, `FreeListGets`: the reference-counted stack of free blocks, with its 32-bit reference
  words. The caller owns a node from `try_get` (or from its allocation) to `add`. The proof keeps, beside the state, the place
  of every node and the stack in order. `FreeListGets` says when `try_get` comes back with a node.
- `Tickets`, `TicketRuns`, `TicketLooks`: the dequeue protocol of one sub-queue (`tailIndex`, `headIndex`,
  `dequeueOptimisticCount`, `dequeueOvercommit`). One program is run over unbounded indices and over words; the
  second is proved to refine the first. The proof keeps the fate of every unit of the optimistic count. `TicketLooks`
  says how many elements a dequeue gets, by what its own reads saw.
- `Wraparound`, `Ring`: comparison and slot arithmetic on indices that wrap around.
- `BlockIndex`, `BlockIndexSteps`: the circular, growing block index of an implicit producer, whose headers share
  entries, and which consumers read through stale headers and stale tails.
- `ImplicitQueue` and the other `Implicit` modules: an implicit sub-queue behind the ticket protocol. One producer
  enqueues in bulk, step by step, with failures at every allocation; consumers look up, read, count, clear and free;
  other producers allocate, borrow, overwrite and return blocks of the shared pool. `enqueue` is `enqueue_bulk` of one
  element, `dequeue` is `dequeue_bulk` of one. A consumer starts with a range of indices below the tail.
  `ImplicitCalls` is about whole calls of `enqueue_bulk` and what they return, `ImplicitProgress` about when they fail
  and that all calls end. Here the pool is a set of blocks.
- `SubQueue`, `SubQueueRuns`, `SubQueueZero`: the product of `Tickets` and `ImplicitQueue`, which share head and tail.
  There the step that claims indices is the step that grants them, without a guard of its own; that the guard of a
  grant in `ImplicitQueue` always holds is proved. The dequeue results of `ImplicitQueue` are for grants that are not
  empty; here that is the condition that no dequeue is called with a maximum of zero, and it is proved to be exact.
- `WholeQueue`, `WholeQueueRuns`: the product of `SubQueue` and `FreeList`, in which the pool is the free list: a block
  that the queue gives back is handed to `add`, and a block that a producer gets is what `try_get` has popped or what
  has just been allocated. No step asks where a block is; that nobody is given a block in use is proved.
- `IndexWords`: the lookups, bases and block counts of the queue models, as the code computes them on words.
- `ProducerHash` and its companions: the chain of hash tables that maps threads to implicit producers.
  `ProducerHashAnswers` says when a call fails, and that one on its own ends.
- `BlockingQueue`, `BlockingQueueRuns`, `BlockingQueueTries`: `LightweightSemaphore` and the waiting operations of
  `BlockingConcurrentQueue`. `BlockingQueueTries` says that calls take what is there.
- `ThreadSums`: sums over all threads, with which the counting arguments are made.

**The objects that the source changes in place** are classes and arrays here, whose methods are proved against
functions on sequences:

- `ExplicitBlocks`, `ExplicitProducer`: an explicit producer's sub-queue, with its circular list of blocks, its flags
  and its circular index, for runs in which one operation follows the other.
- `Timers`: the timer heap, with timers that know their place in it.
- `MaskWords`, `Masking`: masking by bytes and by words (section 5.3 of RFC 6455).
- `Frames`, `FrameSessions`, `FrameHeaders`: writing and parsing frames (section 5.2 of RFC 6455). `Frames` says
  what the bytes mean, `FrameSessions` holds the loops over the read buffer.
- `Sha1Spec`, `Sha1`, `Sha1Padding`, `Sha1Hash`: SHA-1 as FIPS 180-4 defines it, and as the server computes it.
  `WordNumbers` and `Sha1Numbers` say what its rotations, sums, constants and words in bytes are in arithmetic, and
  `Sha1Abc` derives the digest of "abc".
- `ByteOrder`: numbers in bytes, most significant byte first.

## Where the code departs from what it should do

- Queue: a bulk dequeue with a maximum of zero is not a no-op on an implicit sub-queue. It looks a block up without
  having been granted any of it, adds zero to its count, and if another consumer has just filled the count, both free
  the block. `SubQueueZero.FreedTwice` is such a run; `SubQueueZero.SafeIff` says that every interleaving is safe if and
  only if zero is not among the maxima that dequeues are called with.
- Blocking queue: `wait_dequeue_bulk` with a maximum of zero fails the assertion of `waitMany` that something has been
  acquired (`BlockingQueueRuns.ZeroWaitFails`); `BlockingQueueRuns.WaitAcquires` says that the assertion holds exactly
  if the maximum is positive.
- SHA-1: the padding test at line 167 of `websocket.h` should be `>= 56`. For messages of 56 bytes modulo 64 the
  length is written into the block of the message's end, and lengths of 2^29 bytes and more lose their high bits.
  `Sha1Padding.PaddingIsRightIff` gives the exact condition.
- Timers: a circular timer with interval 0 stays due after it has fired, so `DetectTimers` does not end.
  `Timers.TimerManager.FireFirst` says that a fired timer stays due exactly in that case, and
  `Timers.TimerManager.FireMany` that the loop then goes on after any number of firings; in all other cases
  `Timers.TimerManager.DetectTimers` ends. `Timers.EndlessTimer` is an example.
- Timers: the distance to the next timer is returned as an `int`, which is right exactly below 2^31 milliseconds
  (`Timers.ToInt`). With a timer started with 2^31 the result is -2^31 (`Timers.LateTimer`). The caller in `MsgHub.cpp`
  ignores the result.
- Frames: a complete control frame is neither handled nor skipped: the loop of `onRecv` stays at it for ever
  (`Frames.ControlFrameIsNeverPassed`), which happens if and only if the first frame that is not delivered is a
  complete control frame (`Frames.LoopEndsIff`); `Frames.ControlExactly` says in bytes what that is. Two bytes are
  enough: `Frames.EmptyPingSpins`. A header with the 64-bit length code aborts the process (`Frames.LongFrameAborts`).
- Frames: at an unknown opcode (0, 3 to 7 or 11 to 15) the loop waits, and goes on waiting whatever arrives, while the
  buffer grows: `Frames.WaitsForEverIff` says that bytes have this effect if and only if they begin a final frame,
  without extension bits, of such an opcode, and `Frames.UnknownOpcodeBlocks` that the connection then delivers nothing
  more. The last frame of a fragmented message is an example (`Frames.LastFragmentBlocks`).
- Masking: the comments of `word_mask_circ` and `byte_mask_circ` say that bytes behind `length` are rewritten with
  their own values; the code writes exactly `length` bytes, and the contracts say so.
- The lookups divide a signed distance by `BLOCK_SIZE`, and their comments say that this preserves the sign. It does
  not, because `BLOCK_SIZE` is unsigned. The lookup is right all the same, because the number of slots divides the
  number of blocks in the index range; `Wraparound.SlotRightIff` shows that it is right only then.

## Model

| member | source | states |
|---|---|---|
| FreeList.StepKeepsInv | code/ChainSocket/Queue.h:1439-1519 | every atomic step of `add`, `try_get` and `add_knowing_refcount_is_zero`, in every interleaving, keeps the count of every node equal to its holders plus the list's own references, the stack acyclic and every node in one place |
| FreeListRuns.Conservation | code/ChainSocket/Queue.h:1439-1519 | in every reachable state the list from `freeListHead` is acyclic, and every node is exactly one of: owned by a caller, on the list, worked on by exactly one thread, or left to the threads that hold references to it |
| FreeListRuns.LastHolderInserts | code/ChainSocket/Queue.h:1481-1487 | a node left to its holders is not the head, its reference word is the flag plus exactly the number of holders, and a holder that lets go inserts it exactly if it is the last: so it is inserted once and not lost |
| FreeListRuns.PopIsSafe | code/ChainSocket/Queue.h:1467-1478 | no ABA: when the head CAS succeeds, the `next` read earlier is still the node's successor; after a pop the should-be-on-list flag is clear and only the popping thread has the node (the assertion of the source); no thread is ever stuck or touches a node that does not exist |
| FreeListRuns.Quiescent | code/ChainSocket/Queue.h:1439-1519 | when no thread is inside, every node is owned by a caller or on the list, and the words hold exactly the list's own references |
| FreeListRuns.OneOwnerBetweenAdds | code/ChainSocket/Queue.h:1439-1491 | at any point of any run a node has been handed out as often as it was given back, plus once exactly while a caller owns it: at most one owner between two calls of `add` |
| FreeListGets.NothingOnlyIfEmpty | code/ChainSocket/Queue.h:1456-1490 | in every run, if a call of `try_get` ends and nobody has been given a node, the head was null when the call last read it, by a load or by a failed compare-and-swap |
| FreeListGets.LoneGet | code/ChainSocket/Queue.h:1452-1491 | with nobody else inside, a `try_get` ends, and hands out the first node of the list and leaves the others in order, or finds the list empty and changes nothing |
| FreeListGets.LoneAdd | code/ChainSocket/Queue.h:1439-1450 | with nobody else inside, an `add` ends and puts the node on top of the list |
| Tickets.WinnersBound | code/ChainSocket/Queue.h:1992-2000 | the counting argument behind the claim that the head never exceeds the tail: the winner with the highest ticket bounds the number of all winners by the tail |
| Tickets.HeadBelowTail | code/ChainSocket/Queue.h:1992-2000 | the head plus all that has been won and not yet claimed is at most the tail |
| Tickets.StepKeepsInv | code/ChainSocket/Queue.h:1952-2049 | every atomic step of any number of `dequeue` and `dequeue_bulk` calls and of the enqueuer keeps the ticket invariant; in particular the overcommit a thread read is covered by tickets lost before its own |
| TicketRuns.GrantedExactlyOnce | code/ChainSocket/Queue.h:2255-2278 | with any number of concurrent dequeues against one enqueuer the head never passes the tail, and the indices granted are exactly those below the head, each once |
| TicketRuns.GrantsLieBelowTail | code/ChainSocket/Queue.h:1992-2000 | what a thread is about to claim lies between the head and the tail, whatever others have won and not claimed: the guard of a grant in `ImplicitQueue` |
| TicketRuns.QuiescentCount | code/ChainSocket/Queue.h:2043-2046 | once no dequeuer is in flight, optimistic count minus overcommit is the head |
| TicketRuns.LoneDequeue | code/ChainSocket/Queue.h:2573-2584 | a lone dequeue succeeds exactly when the head is below the tail, then takes the next indices, as many as there are up to its maximum, and otherwise changes nothing |
| TicketRuns.WordsRefineExact | code/ChainSocket/Queue.h:2807-2829 | on words of any size the same run goes through the images of the states of the unbounded machine, as long as no comparison spans half the index range |
| TicketLooks.GetsWhatItSaw | code/ChainSocket/Queue.h:2807-2822 | in every interleaving the `j`-th ticket of a dequeue wins if and only if an element was there for it at both of the dequeue's looks at the tail, for the counts that it read |
| TicketLooks.NothingOnlyIfUnseen | code/ChainSocket/Queue.h:2807-2914 | a dequeue ends without an element only if it asked for none or saw none at one of its looks |
| Wraparound.CircularLessMeaning | code/ChainSocket/Queue.h:432-444 | on the words of any two indices, `circular_less_than` holds exactly if their distance modulo the range is positive and less than half of it |
| Wraparound.CircularLessIsLess | code/ChainSocket/Queue.h:432-444 | for indices less than half the range apart it is the true `<` |
| Wraparound.OffsetMeaning | code/ChainSocket/Queue.h:2988-2991 | the quotient that the code computes, an unsigned one, is the block distance modulo the number of blocks in the range |
| Wraparound.SlotRight | code/ChainSocket/Queue.h:2008-2017 | the slot that the lookup computes is that of the block, for positive and negative distances |
| Wraparound.SlotRightIff | code/ChainSocket/Queue.h:2988-2992 | the lookup is right for all blocks if and only if the number of slots divides the number of blocks in the index range |
| Ring.WrapIsRemainder | code/ChainSocket/Queue.h:2966-2970 | positions in a ring, which the models compute without remainders, are remainders, for negative numbers too |
| BlockIndex.LookupIsRight | code/ChainSocket/Queue.h:2979-2996 | through any header and any tail position ever published, however stale, the computed slot is that of the block, its key is the block's base and its value the block: the assertions of the lookup |
| BlockIndex.TailKeyIsBase | code/ChainSocket/Queue.h:2985-2987 | the key at the tail of any header is not the invalid base while a committed block is in the index |
| BlockIndex.CurrentFinds | code/ChainSocket/Queue.h:2979-2984 | the newest header leads to every block in the index |
| BlockIndexSteps.FindsStays | code/ChainSocket/Queue.h:2973-2996 | a header that leads to a block goes on leading to it, through insertions, growth and rewinds, until the block is taken out |
| BlockIndexSteps.FullRing | code/ChainSocket/Queue.h:2943-2946 | if the slot behind the tail is taken, a whole turn of blocks has been inserted and every key is up to date |
| BlockIndexSteps.KeepGrow | code/ChainSocket/Queue.h:2998-3042 | doubling the index, which copies the pointers to the old entries, keeps the invariant for all headers, old and new, whatever consumers have cleared since the ring was found full; the slot behind the new tail has never been used, as the code asserts |
| BlockIndexSteps.KeepStoreKey | code/ChainSocket/Queue.h:2942-2948 | storing the key of the next slot, in whichever headers share it, keeps the invariant and every lookup in progress |
| BlockIndexSteps.KeepStoreTail | code/ChainSocket/Queue.h:2949-2949 | so does publishing the new tail |
| BlockIndexSteps.KeepRewind | code/ChainSocket/Queue.h:2966-2971 | so does rewinding the tail after a failed enqueue, which leaves the key behind |
| BlockIndexSteps.KeepStoreBlock | code/ChainSocket/Queue.h:2554-2555 | so does storing the block, which no entry had before |
| BlockIndexSteps.KeepClearLive | code/ChainSocket/Queue.h:2625-2625 | so does taking a block out, by the consumer that emptied it or by the undo loop |
| ImplicitRuns.StepKeeps | code/ChainSocket/Queue.h:2508-2802 | every step of the producer, the consumers and the other producers, but an empty grant, keeps the invariant of the sub-queue, and extends the log by exactly the items of a call at the step that publishes its tail |
| ImplicitRuns.NothingFails | code/ChainSocket/Queue.h:2508-2996 | with no empty grant, in every reachable state the next access of every thread is to memory that exists, and the assertions on its way hold: looked-up entries, by consumers and by the undo loop, have the base and a block, the count of a block does not go past its size, the slot behind the tail of a new index is unused, the producer has a block to chain to and to write to, and the head is not past the tail |
| ImplicitRuns.LookupFinds | code/ChainSocket/Queue.h:2979-2996 | with no empty grant, in every interleaving the entry that a consumer computes for its index has its block's base as its key and a block as its value |
| ImplicitRuns.DequeuedIsEnqueued | code/ChainSocket/Queue.h:2587-2617 | with no empty grant, a dequeue has read exactly the elements that were enqueued at its indices, in order, and when done all of them |
| ImplicitRuns.EveryElementOnce | code/ChainSocket/Queue.h:2508-2638 | with no empty grant: when no dequeue is under way, every index below the head has been delivered exactly once, with the element enqueued there, and nothing else has been delivered |
| ImplicitBlocks.OnePlace | code/ChainSocket/Queue.h:3089-3136 | with no empty grant, a block is in exactly one place: the pool, another producer, one entry of the index, the producer's hands, or the hands of the one consumer that emptied it |
| ImplicitBlocks.ReadBlockStays | code/ChainSocket/Queue.h:2619-2628 | with no empty grant, a block that a consumer is reading stays in the index at that entry and is neither free nor being freed; whoever clears the entry is the last reader |
| ImplicitRelease.ClearIsSafe | code/ChainSocket/Queue.h:2894-2905 | a consumer that has counted a block full is alone with it: no index of the block is held or still to be granted |
| ImplicitRelease.KeepFreeBlock | code/ChainSocket/Queue.h:2904-2904 | a block given back was not in the pool: it is freed once per fill |
| ImplicitPublish.WriteBlockIsIndexed | code/ChainSocket/Queue.h:2723-2731 | the block that the writing loop reaches along its chain is the one under which the index will find the element |
| ImplicitPublish.KeepPublish | code/ChainSocket/Queue.h:2566-2569 | storing the tail makes all elements of the call visible at once, in order, each where consumers will look |
| ImplicitBulk.KeepUndoFree | code/ChainSocket/Queue.h:2695-2696 | the undo loop gives each requisitioned block back once |
| ImplicitCalls.AllOrNothing | code/ChainSocket/Queue.h:2640-2802 | `enqueue_bulk` is all or nothing at every moment: since the start of the call either exactly its items have become visible and the tail has moved by their number, or nothing has and the tail is where it was |
| ImplicitCalls.CallOutcome | code/ChainSocket/Queue.h:2678-2699 | a call returns true exactly if its items were published, and then used exactly the blocks it counted and gave none back; it returns false exactly if nothing was, and then tail and tail block are as before, every block it took was given back once, and the index tail is where it was unless the index has grown |
| ImplicitProgress.CallFailsIffRefused | code/ChainSocket/Queue.h:2670-2699 | a call of `enqueue_bulk` that has returned has returned false if and only if it was refused a slot of the index, a larger index or a block |
| ImplicitProgress.EnqueueEnds | code/ChainSocket/Queue.h:2640-2802 | a bulk enqueue takes at most 12 steps of its own for each block it needs, one for each item, and 15 more, whatever the others do |
| ImplicitProgress.DequeueEnds | code/ChainSocket/Queue.h:2826-2908 | a dequeue that has been granted `n` indices is done after at most `7 * n + 7` steps of its own, whatever the others do |
| ImplicitBlocks.IdleIsClean | code/ChainSocket/Queue.h:2678-2699 | between calls nothing is left over from a call that failed: the producer holds no block, no entry points to a block behind the tail, and every unread element's block is in the index |
| ImplicitBlocks.BlocksUsed | code/ChainSocket/Queue.h:2657-2659 | a call that succeeds uses exactly the blocks counted by `blockBaseDiff`; they are distinct, in the index, and what the longer queue needs |
| SubQueueRuns.ClaimIsGrant | code/ChainSocket/Queue.h:2818-2829 | the step of the ticket protocol that adds to the head is a grant that the queue allows: not empty, to an idle consumer, and below the tail |
| SubQueueRuns.RunIsQueueRun | code/ChainSocket/Queue.h:2807-2829 | every run of the ticket protocol together with the queue is a run of the queue with the same log and the same deliveries |
| SubQueueRuns.NothingFails | code/ChainSocket/Queue.h:2979-2996 | in every interleaving of dequeues that ask for at least one element with bulk enqueues, growth and failures, no thread is ever stuck, and every lookup passes its assertions |
| SubQueueRuns.EveryElementOnce | code/ChainSocket/Queue.h:2572-2638 | the whole sub-queue, ticket protocol included: when no dequeue is under way, every index below the head has been delivered exactly once, with the element enqueued there, nothing else has been, and optimistic count minus overcommit is the head |
| SubQueueZero.FreedTwice | code/ChainSocket/Queue.h:2894-2905 | a run with single dequeues and one of maximum zero in which two consumers free the same block |
| SubQueueZero.SafeIff | code/ChainSocket/Queue.h:2807-2907 | lookups find what is asserted and every block is in one place and freed once, in every interleaving, if and only if no dequeue is called with a maximum of zero |
| WholeQueueRuns.BlocksChangeHandsSafely | code/ChainSocket/Queue.h:3089-3136 | with no dequeue of at most zero, in every interleaving of the queue with the free list: what `try_get` is about to hand out is a block of the pool, what is allocated is no block yet, and what the queue gives back is its own, so that every step of the whole is a step of each part |
| WholeQueueRuns.RunIsBoth | code/ChainSocket/Queue.h:3101-3118 | every run of the whole is a run of the sub-queue and a run of the free list, with the same states |
| WholeQueueRuns.ListIsPool | code/ChainSocket/Queue.h:1494-1519 | when no thread is inside the free list, the list spelled out from `freeListHead` is exactly the pool |
| WholeQueueRuns.NeverStuck | code/ChainSocket/Queue.h:2894-2905 | every consumer and every thread of the free list can go on; giving a block back waits for nothing but the start of `add` |
| WholeQueueRuns.EveryElementOnce | code/ChainSocket/Queue.h:2572-2638 | ticket protocol, queue and free list together: when no dequeue is under way, every index below the head has been delivered exactly once, with the element enqueued there, and nothing else has been |
| IndexWords.LookupOnWords | code/ChainSocket/Queue.h:2988-2992 | on words, with an unsigned quotient, the lookup of an implicit producer computes the slot of the model |
| IndexWords.ExplicitLookupOnWords | code/ChainSocket/Queue.h:2011-2017 | so does that of an explicit producer, and the entry there is that of the block |
| IndexWords.KeysOnWords | code/ChainSocket/Queue.h:2993-2993 | keys less than the range apart are equal exactly if their words are |
| IndexWords.BaseOnWords | code/ChainSocket/Queue.h:2983-2983 | clearing the low bits of the word of an index gives the word of its base |
| IndexWords.NeededOnWords | code/ChainSocket/Queue.h:2657-2659 | `blockBaseDiff`, computed on words, is the number of blocks that the model inserts |
| ProducerHash.NewCapacity | code/ChainSocket/Queue.h:3482-3485 | the new capacity is not smaller and more than twice the count |
| ProducerHashSteps.EmptyMeansMissing | code/ChainSocket/Queue.h:3464-3466 | an empty slot on the probing path means that the thread is not in this table |
| ProducerHashSteps.TableHasRoom | code/ChainSocket/Queue.h:3435-3437 | fewer than three quarters of a table are ever used, although tables fill concurrently and older tables migrate into newer ones |
| ProducerHashSteps.ProbesEnd | code/ChainSocket/Queue.h:3428-3428 | a probing loop never makes as many probes as there are slots |
| ProducerHashRuns.OneProducerPerThread | code/ChainSocket/Queue.h:3406-3561 | two calls return the same producer if and only if the same thread made them, in every interleaving with growth, migration and failing allocations |
| ProducerHashRuns.TablesHaveRoom | code/ChainSocket/Queue.h:3428-3437 | every table always has an empty slot and every probing loop ends |
| ProducerHashRuns.NeverStuck | code/ChainSocket/Queue.h:3472-3493 | no thread ever has nowhere to go, and the reservation count never goes below zero |
| ProducerHashAnswers.FailsOnlyIfDenied | code/ChainSocket/Queue.h:3405-3545 | in every run a finished call has no producer if and only if one of its own allocations failed |
| ProducerHashAnswers.LoneCall | code/ChainSocket/Queue.h:3406-3561 | with nobody else inside the resize lock is free, and a call whose allocations succeed ends and returns a producer |
| ProducerHashAnswers.FoundInNewTable | code/ChainSocket/Queue.h:3429-3458 | after a successful call the thread's key is in the table that was the newest when the call began, or in a newer one |
| ProducerHashAnswers.TablesStaySmall | code/ChainSocket/Queue.h:3478-3485 | no table has more slots than four times the number of threads, or than the first one: a table is added only when the newest is half full |
| BlockingQueue.StepKeepsInv | code/ChainSocket/BlockQueue.h:250-384 | every step of `signal`, both spinning waits, the time-out loops and the wrappers keeps: count = issued - granted - waiters, and waiters = kernel tokens + owed posts + deficit |
| BlockingQueueRuns.PermitsConserved | code/ChainSocket/BlockQueue.h:250-323 | grants never exceed permits; permits not granted are in the count, in the kernel semaphore or owed by a running signal; whenever the count is not negative every waiter has its token |
| BlockingQueueRuns.NoLostWakeup | code/ChainSocket/BlockQueue.h:377-384 | a thread that waits at a kernel semaphore of zero while no signal is posting: every permit issued has been granted |
| BlockingQueueRuns.InnerCoversPermits | code/ChainSocket/BlockQueue.h:497-503 | the inner queue holds at least as many elements as consumers hold unused permits |
| BlockingQueueRuns.RetryFindsElements | code/ChainSocket/BlockQueue.h:660-668 | no retry loop runs against an empty inner queue, and each can be completed at once |
| BlockingQueueRuns.ReturnsWhatItAcquired | code/ChainSocket/BlockQueue.h:691-699 | a call returns exactly as many elements as it took out of the inner queue, which are as many as the permits it was granted; at most its maximum; without a time-out at least one exactly if the maximum is positive |
| BlockingQueueRuns.WaitAcquires | code/ChainSocket/BlockQueue.h:371-375 | in every run a wait without a time-out has acquired something, as the code asserts, exactly if its maximum is positive |
| BlockingQueueRuns.ZeroWaitFails | code/ChainSocket/BlockQueue.h:371-375 | a run in which a wait for at most zero acquires nothing |
| BlockingQueueTries.LessOnlyIfNoneLeft | code/ChainSocket/BlockQueue.h:290-376 | in every run a call returns fewer elements than its maximum only if `m_count` was not positive at one of its own accesses, and a call that may wait returns none only if its wait has timed out |
| BlockingQueueTries.LoneDequeue | code/ChainSocket/BlockQueue.h:691-699 | with nobody else inside, a call returns exactly as many elements as there are, up to its maximum, and leaves the others; it does not wait if there are any |
| BlockingQueueTries.LoneEnqueue | code/ChainSocket/BlockQueue.h:377-384 | with nobody else inside, an enqueue adds its elements and as many permits and posts nothing |
| BlockingQueueTries.LoneTimeOut | code/ChainSocket/BlockQueue.h:303-318 | with nobody else inside and nothing in the queue, a call with a time-out waits, times out, returns nothing and leaves everything as it was |
| BlockingQueueTries.WaiterIsWoken | code/ChainSocket/BlockQueue.h:377-384 | from an empty queue: one thread waits, another enqueues and posts exactly once, and the waiter goes on with a permit |
| BlockingQueueTries.SpinTakes | code/ChainSocket/BlockQueue.h:294-303 | a spinning call that meets permits takes them, up to its maximum, if nobody else does |
| BlockingQueueRuns.QuietCount | code/ChainSocket/BlockQueue.h:549-556 | when nobody is in a call, `m_count` is the number of elements and the kernel semaphore is at zero |
| BlockingQueueRuns.NeverStuck | code/ChainSocket/BlockQueue.h:279-287 | every thread can go on but those that wait at a kernel semaphore of zero |
| ExplicitBlocks.Block.IsEmpty | code/ChainSocket/Queue.h:1552-1563 | true exactly if all elements are marked |
| ExplicitBlocks.Block.SetEmpty | code/ChainSocket/Queue.h:1577-1585 | marks exactly the element of the index, which was not marked (the source's assertion) |
| ExplicitBlocks.Block.SetManyEmpty | code/ChainSocket/Queue.h:1597-1606 | marks exactly the elements of the range, in the reversed layout of the flags |
| ExplicitBlocks.Block.ResetEmpty | code/ChainSocket/Queue.h:1629-1634 | marks nothing |
| ExplicitBlocks.IndexGrowsRing | code/ChainSocket/Queue.h:1930-1936 | recording an inserted block keeps the window before `pr_blockIndexFront` a mirror of the block ring with consecutive bases |
| ExplicitBlocks.IndexTurnsRing | code/ChainSocket/Queue.h:1863-1867 | reusing the oldest block overwrites just its own entry of the window, so there is always room |
| ExplicitBlocks.LookupFinds | code/ChainSocket/Queue.h:2011-2017 | from the front slot and its base the lookup reaches the entry of any block in the ring |
| ExplicitBlocks.WindowMoves | code/ChainSocket/Queue.h:2392-2400 | copying the used slots to the start of a larger index keeps every live entry |
| ExplicitBlocks.EmptyMeansPassed | code/ChainSocket/Queue.h:1857-1861 | the block ahead is empty exactly if the head has passed all its elements |
| ExplicitProducer.Producer.constructor | code/ChainSocket/Queue.h:2376-2414 | a new producer is empty, whether or not its first index could be allocated |
| ExplicitProducer.Producer.NewBlockIndex | code/ChainSocket/Queue.h:2376-2415 | the index doubles and goes on mirroring the ring, or nothing changes |
| ExplicitProducer.Producer.StartBlock | code/ChainSocket/Queue.h:1853-1937 | reuses the oldest block exactly if the head has passed it, otherwise inserts the new one; fails exactly if neither can be done, changing no element |
| ExplicitProducer.Producer.Enqueue | code/ChainSocket/Queue.h:1849-1949 | appends the element to the contents, or fails with the contents unchanged, exactly when a block is needed and none is to be had |
| ExplicitProducer.Producer.Lookup | code/ChainSocket/Queue.h:2003-2017 | the slot of the block of any index in the ring |
| ExplicitProducer.Producer.Dequeue | code/ChainSocket/Queue.h:1951-2050 | takes exactly the oldest element, and fails exactly if there is none: a FIFO |
| ExplicitProducer.Producer.TakeBlocks | code/ChainSocket/Queue.h:2291-2350 | takes the elements of a range across blocks, in order, and marks exactly those |
| ExplicitProducer.Producer.DequeueBulk | code/ChainSocket/Queue.h:2254-2360 | takes as many of the oldest elements as there are, up to the maximum, in order |
| Timers.UpStep | code/ChainSocket/Timer.cpp:82-89 | one swap upwards moves the only disorder of the heap to the parent |
| Timers.DownStep | code/ChainSocket/Timer.cpp:91-102 | one swap with the earlier child moves the only disorder downwards |
| Timers.ReplacedByLast | code/ChainSocket/Timer.cpp:52-61 | putting the last entry in the place of another leaves one disorder, which the parent test of the code tells apart |
| Timers.FirstIsEarliest | code/ChainSocket/Timer.cpp:67-70 | the first entry of a heap in order is the earliest |
| Timers.ToInt | code/ChainSocket/Timer.cpp:76-76 | the returned `int` is the distance if and only if the distance is below 2^31; up to 2^32 it is then negative |
| Timers.TimerManager.SwapHeap | code/ChainSocket/Timer.cpp:104-110 | exchanges two entries and keeps every timer's place right |
| Timers.TimerManager.UpHeap | code/ChainSocket/Timer.cpp:82-89 | restores the order without changing the entries |
| Timers.TimerManager.DownHeap | code/ChainSocket/Timer.cpp:91-102 | restores the order without changing the entries |
| Timers.TimerManager.AddTimer | code/ChainSocket/Timer.cpp:42-47 | adds exactly one entry; the heap stays ordered, and every timer knows its place |
| Timers.TimerManager.RemoveTimer | code/ChainSocket/Timer.cpp:49-64 | removes exactly the timer's entry, wherever it is; the heap stays ordered, and all other timers know their place |
| Timers.Timer.Stop | code/ChainSocket/Timer.cpp:23-28 | takes the timer's entry out if it has one, and nothing else |
| Timers.Timer.Start | code/ChainSocket/Timer.h:71-78 | exchanges the timer's old entry, if any, for one at `interval` after now |
| Timers.Timer.OnTimer | code/ChainSocket/Timer.cpp:31-39 | a circular timer is put back at `interval` after now, a single one stays out |
| Timers.TimerManager.FireFirst | code/ChainSocket/Timer.cpp:70-74 | fires the earliest timer, which stays due if and only if it is circular with interval 0 |
| Timers.TimerManager.DetectTimers | code/ChainSocket/Timer.cpp:67-80 | ends, fires exactly the timers due, each once, in order of their times, puts the circular ones back at `interval` after now, leaves only later entries, and returns the distance to the earliest, exactly if it is below 2^31 |
| Timers.TimerManager.FireMany | code/ChainSocket/Timer.cpp:70-78 | while a circular timer with interval 0 is due, it is still due after any number of firings, and so is the first entry: the loop goes on |
| Timers.EndlessTimer | code/ChainSocket/Timer.cpp:67-80 | an example: `Start` with interval 0 |
| Timers.LateTimer | code/ChainSocket/Timer.cpp:76-76 | an example: a timer 2^31 ahead gives a negative result |
| Masking.MaskedTwice | code/ChainSocket/frame.hpp:664-673 | masking twice is the identity |
| Masking.ByteMask | code/ChainSocket/frame.hpp:664-673 | the byte loop masks as section 5.3 of RFC 6455 says, from any key offset, in place or not |
| MaskWords.XorIsEither | code/ChainSocket/frame.hpp:664-673 | masking sets the bits that are set in exactly one of the two bytes |
| MaskWords.PreparedByte | code/ChainSocket/frame.hpp:614-623 | the prepared key holds the key twice |
| MaskWords.ShiftedByte | code/ChainSocket/frame.hpp:631-642 | shifting by some bytes turns the word: its first byte is the one at that offset |
| MaskWords.XorBytes | code/ChainSocket/frame.hpp:726-728 | a word operation works on all bytes |
| Masking.PreparedRepresents | code/ChainSocket/frame.hpp:614-623 | a prepared key represents the key from the start of the message |
| Masking.ShiftRepresents | code/ChainSocket/frame.hpp:797-802 | a returned key represents the key where the chunk has ended |
| Masking.WordMaskExact | code/ChainSocket/frame.hpp:719-733 | words and the rest of bytes give what the byte loop gives, and only `length` bytes are written |
| Masking.WordMaskCirc | code/ChainSocket/frame.hpp:783-803 | masks with the bytes of the prepared key and returns it shifted by the bytes left over |
| Masking.ByteMaskCirc | code/ChainSocket/frame.hpp:844-854 | masks with the low bytes of the prepared key and returns it shifted |
| Masking.StreamIsMasked | code/ChainSocket/frame.hpp:783-803 | chunks of any lengths, each masked by words or by bytes with the key that the one before returned, give what masking the whole message byte by byte gives |
| Masking.StreamFromStart | code/ChainSocket/frame.hpp:614-623 | so does a stream that starts with the prepared key |
| Masking.SameNextKey | code/ChainSocket/frame.hpp:844-854 | both circular functions return the same next key, the right one |
| FrameHeaders.HeaderRoundTrip | code/ChainSocket/frame.hpp:194-273 | flags, opcode, mask bit, key and length, up to 64 bits, are read back from the header they were put into |
| FrameHeaders.HeadersAgree | code/ChainSocket/frame.hpp:511-523 | the library's header for a text message is, byte for byte, the one that the server writes by hand |
| Frames.ParseInTwo | code/example/wsserver/WebSocketPoller.hpp:330-425 | parsing what was left together with what comes next is parsing everything at once |
| Frames.ChunksDoNotMatter | code/example/wsserver/WebSocketPoller.hpp:330-425 | for any bytes, any chunking gives the same messages, the same end and the same rest |
| Frames.RoundTrip | code/example/wsserver/WebSocketPoller.hpp:352-404 | a text or binary frame with any masking key, or none, and with its length in either form, is parsed as its payload, whatever follows |
| Frames.MessageIff | code/example/wsserver/WebSocketPoller.hpp:340-404 | the bytes that are delivered as a message are exactly those that begin with such a frame |
| Frames.MaskedHello | code/example/wsserver/WebSocketPoller.hpp:380-403 | the masked example of section 5.7 of RFC 6455 |
| Frames.FramesInAnyChunks | code/example/wsserver/WebSocketPoller.hpp:330-425 | text and binary frames of up to 65535 bytes, each with a key of its own or none, in any chunking: exactly the payloads, in order, and the buffer holds exactly the unmodified bytes of the last, incomplete frame |
| Frames.ControlExactly | code/example/wsserver/WebSocketPoller.hpp:340-391 | the bytes at which the loop neither delivers nor moves on are exactly the complete control frames: final, no extension bits, opcode 8, 9 or 10, length code not 127, header and payload all there |
| Frames.ControlFrameIsNeverPassed | code/example/wsserver/WebSocketPoller.hpp:405-414 | at a complete control frame, after any number of rounds of the loop, which unmask the payload of a masked ping in place, the parse position and what has been delivered are the same, and there is still a complete control frame |
| Frames.LoopEndsIff | code/example/wsserver/WebSocketPoller.hpp:333-424 | the loop ends if and only if the first frame that is not delivered is not a complete control frame |
| Frames.EmptyPingSpins | code/example/wsserver/WebSocketPoller.hpp:405-411 | an example: the bytes 0x89 0x00 |
| Frames.ClosesExactly | code/example/wsserver/WebSocketPoller.hpp:340-350 | the connection is closed exactly for extension bits, and otherwise for a first byte without the final bit |
| Frames.LongFrameAborts | code/example/wsserver/WebSocketPoller.hpp:376-378 | a complete header aborts the server if and only if it has the 64-bit length code |
| Frames.WaitsForEverIff | code/example/wsserver/WebSocketPoller.hpp:351-419 | bytes make the loop wait whatever follows if and only if they begin with a final frame, without extension bits, of an unknown opcode |
| Frames.UnknownOpcodeBlocks | code/example/wsserver/WebSocketPoller.hpp:415-424 | from there on, whatever arrives in whatever chunks, nothing is delivered and everything is kept |
| Frames.LastFragmentBlocks | code/example/wsserver/WebSocketPoller.hpp:415-424 | an example: a final continuation frame |
| FrameSessions.Session.Iterate | code/example/wsserver/WebSocketPoller.hpp:334-421 | one round over the read buffer, with unmasking in place, is the round of the specification |
| FrameSessions.Session.OnRecv | code/example/wsserver/WebSocketPoller.hpp:330-425 | the loop over the read buffer delivers what the parsing function says, with payloads unmasked where they lie, and ends as it says; if it waits, exactly the rest is kept, and if the connection is closed nothing is erased |
| FrameSessions.Session.ReceiveAll | code/example/wsserver/WebSocketPoller.hpp:330-425 | chunks that arrive one after the other, each appended to the read buffer and parsed in place, give what the specification says of them, and leave its rest in the buffer if the loop still waits |
| FrameSessions.Session.ReceiveFrames | code/example/wsserver/WebSocketPoller.hpp:330-425 | the same for the read buffer: exactly their payloads, in order, and the buffer holds exactly the start of the last, incomplete frame |
| FrameSessions.Session.Spin | code/example/wsserver/WebSocketPoller.hpp:405-414 | at a control frame any number of rounds over the read buffer leave the loop where it was |
| FrameSessions.Session.UnmaskFrame | code/example/wsserver/WebSocketPoller.hpp:398-411 | unmasks the payload of a complete frame, message or ping, and changes no other byte of the buffer |
| FrameSessions.Session.TakeMessage | code/example/wsserver/WebSocketPoller.hpp:380-404 | unmasks a complete payload where it lies, delivers it and changes no other byte |
| FrameSessions.Session.UnmaskInPlace | code/example/wsserver/WebSocketPoller.hpp:398-402 | unmasks exactly the payload |
| FrameSessions.Mask | code/example/wsserver/WebSocketPoller.hpp:509-515 | masks in place as section 5.3 of RFC 6455 says |
| FrameSessions.MakeFrameHead | code/example/wsserver/WebSocketPoller.hpp:464-507 | writes the header of the frame format |
| FrameSessions.SendMsg2 | code/example/wsserver/WebSocketPoller.hpp:175-238 | sends one whole frame that encodes the message |
| Sha1Numbers.Rotl1Number | code/example/wsserver/websocket.h:100-100 | the rotation by one is multiplication by 2 modulo 2^32 with what overflows added again |
| Sha1Numbers.Rotl5Number | code/example/wsserver/websocket.h:104-104 | the rotation by five, by 32 |
| Sha1Numbers.Rotl30Number | code/example/wsserver/websocket.h:107-107 | the rotation by thirty, by 2^30 |
| WordNumbers.Sum5Number | code/example/wsserver/websocket.h:104-104 | the sum of five words is that of their numbers modulo 2^32 |
| Sha1Numbers.WordOfNumber | code/example/wsserver/websocket.h:151-155 | a word that is read from four bytes has their number, the most significant byte first |
| Sha1Numbers.WordBytesNumber | code/example/wsserver/websocket.h:175-179 | the bytes of a word are its number, the most significant byte first |
| Sha1Numbers.KIsRoot | code/example/wsserver/websocket.h:113-132 | the four constants are the integer parts of 2^30 times the square roots of 2, 3, 5 and 10 |
| Sha1Numbers.InitialBytes | code/example/wsserver/websocket.h:147-147 | the initial hash value, by the pattern of its bytes |
| Sha1Abc.AbcDigest | code/example/wsserver/websocket.h:145-180 | the digest of "abc" is a9993e36 4706816a ba3e2571 7850c26c 9cd0d89d |
| Sha1.ChooseIsCh | code/example/wsserver/websocket.h:112-118 | the simplified choice function is Ch of FIPS 180-4, section 4.1.1 |
| Sha1.MajorityIsMaj | code/example/wsserver/websocket.h:125-128 | the simplified majority function is Maj |
| Sha1.Schedule | code/example/wsserver/websocket.h:116-116 | overwriting `w[t & 0xf]` gives word t of the schedule of section 6.1.2 and keeps the last sixteen |
| Sha1.Sha1Mix | code/example/wsserver/websocket.h:92-143 | eighty rounds on sixteen words in place are the compression of section 6.1.2 |
| Sha1Padding.PaddingIsRightIff | code/example/wsserver/websocket.h:160-173 | the server pads as section 5.1.1 says if and only if the length is not 56 modulo 64 and is less than 2^29 |
| Sha1Hash.ServerBlocks | code/example/wsserver/websocket.h:160-173 | the blocks hashed at the end are those of the server's padding, one or two |
| Sha1Hash.Hash | code/example/wsserver/websocket.h:145-180 | `sha1` writes the digest of the server's padded message, for every length |
| Sha1Hash.ServerHashIsSha1 | code/example/wsserver/websocket.h:145-180 | which is SHA-1 for every length below 2^29 that is not 56 modulo 64 |

## Left out

- ImplicitRuns.StepKeeps: models indices as unbounded integers. What the code computes from their words is proved to be
  the same for the comparisons (`TicketRuns.WordsRefineExact`) and for slots, bases, keys and block counts
  (`IndexWords`), one by one and not as one refinement of the whole machine.
- ImplicitPublish.WriteBlockIsIndexed: the chain of `next` pointers that the writing loop follows is the sequence of
  the blocks inserted by the call; the pointers are not memory of the model.
- FreeList.StepKeepsInv: is for at most 0x7FFFFFFC threads; with more, the count could carry into the flag bit of the
  reference word.
- ProducerHashRuns.TablesHaveRoom: capacities and counts are unbounded; an overflow of `size_t` is not modelled.
- TicketRuns.WordsRefineExact: is stated for runs in which no comparison spans half the index range. Beyond that the
  comparison itself means something else, as `Wraparound.CircularLessMeaning` says for all indices.
- Timers.TimerManager.DetectTimers: requires positive intervals of the circular timers that are due, because a Dafny
  method has to end. With interval 0 the source's loop does not, which is what `Timers.TimerManager.FireMany` says.
- Sha1Hash.ServerHashIsSha1: has no converse. That a message padded otherwise also hashes otherwise would say that
  SHA-1 has no collision there; what is proved is exactly when the padding is right.
- WholeQueueRuns.RunIsBoth: is for one implicit producer; what the other producers do with the blocks they get is any
  writing to them, and what they take and give back goes through the same free list.
- FrameSessions.Session.OnRecv: ends at a control frame and says so, because a Dafny method has to end; there the
  source's loop goes on for ever, as `Frames.LoopEndsIff` and `FrameSessions.Session.Spin` say. Where the source aborts
  the method ends, too.
- FrameSessions.SendMsg2: is stated for messages of up to 65535 bytes; the source asserts that.
- ExplicitProducer.Producer.Dequeue: is modelled for runs in which one operation follows the other. The branch
  that gives a ticket back cannot be taken in those runs; `Tickets` has it, with all its interleavings.
- ExplicitProducer.Producer.Enqueue: leaves out `MAX_SUBQUEUE_SIZE`, which is unlimited by default, and the
  exception path of element constructors.
- Memory orders and fences: atomics are sequentially consistent. Object lifetimes, alignment, moves and swaps of
  queues, and exceptions from element constructors are left out too; elements are integers.
- Explicit `enqueue_bulk` and its rollback, which restores the count of index slots but keeps the injected blocks in
  the ring, so that the invariant of the explicit producer would not survive a failure.
- Concurrency of the explicit producer's index and flags: its dequeue protocol is that of `Tickets`; the block index
  under concurrency is proved for implicit producers only.
- The initial block pool is not a part of the model: a block from there is one that has just been
  allocated, in `ImplicitQueue` and in `WholeQueue`. A failure to insert or to allocate may happen at every point where the source allows one, which
  covers `MAX_SUBQUEUE_SIZE` and the test for a full queue.
- Thread-exit recycling of implicit producers, which is compiled out, and the choice among producers in
  `ConcurrentQueue::try_dequeue`: a dequeue from the inner queue may come back with nothing, as far as
  `BlockingQueue` knows.
- Kernel semaphores are counters with an atomic post, wait and time-out; clocks are inputs.
- Timers: overflow of 64-bit milliseconds; the functions called do not start or stop timers.
- The big-endian branch of `circshift_prepared_key`, and buffers that overlap at different offsets in the masking
  functions: input and output are the same array or different ones.
- Setters of frame headers, which would only add easy members.
- The HTTP upgrade handshake, base64, the poller backends, `MessageBuffer` (a growable array here), sockets, address
  resolution and logging: plumbing with little to prove.
