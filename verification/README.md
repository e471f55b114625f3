# Verified model of the firmware's OS layer

This project models, in Dafny, the parts of the firmware whose correctness is hardest to see by reading:
the heap allocator, the FreeRTOS queue, event group, list and co-routine code, the Furi event loop with
its timers and message queues, the bit library, and the text codec and word wrapper of the Nikita apps.
Code that rewrites memory in place is modelled by methods and classes and proved against functions on
simple values; the properties the code is for are then proved about those functions, over every input,
every run or every interleaving.

| file | what it models |
|---|---|
| `HeapBlocks.dfy` | the heap as a sequence of blocks in address order: tiling, first fit, coalescing, whole runs of malloc and free |
| `Heap.dfy` | the header-rewriting allocator over a memory map, proved to compute the functions of `HeapBlocks` |
| `QueueRing.dfy` | the queue's byte buffer and offsets as a bounded sequence of items |
| `QueueProtocol.dfy` | the queue's blocking protocol: tasks and interrupts as interleaved steps, lock counts, event lists |
| `EventLoop.dfy` | the event loop, its subscriptions and waiting list, message-queue producers, pended callbacks |
| `LoopTimers.dfy` | the loop's timer list and request queue under wrapping 32-bit ticks |
| `EventGroups.dfy` | event bits and waiters: set, wait, sync, clear, time-out |
| `KernelList.dfy` | the circular doubly linked list at pointer level |
| `CoRoutines.dfy` | co-routine delays with two lists that change places when the tick count overflows |
| `Tick32.dfy` | 32-bit tick arithmetic |
| `Common.dfy` | small notions that several modules share |
| `Crc.dfy` | CRC-8 and CRC-16 as one shift register of any width |
| `Parity.dfy` | parity insertion, and in-place removal of every n-th bit |
| `BuddyCodec.dfy` | the JSON request writer and its two scanners |
| `FaceWrap.dfy` | word wrapping, typing and scrolling of the face's text box |

How things are represented:

- Heap and list pointers are addresses into a map of headers or list items; a write through a pointer is
  a map update. The heap class holds the allocator's statics as fields.
- The two blocking protocols are state machines whose steps are the critical sections of tasks, the loop,
  its callbacks, producers and interrupts; a theorem about a run holds for every interleaving. Event lists
  of the kernel are sets of tasks, and any of them may be the one an event wakes, so the results do not
  depend on priorities. The scheduler is represented by what its calls evidently do: take one waiter off an
  event list and make it ready, enqueue the caller, set and take notification bits.
  Of a block time the queue protocol keeps whether any of it is left; when it runs out is open.
- Event words are sets of bit positions; CRC registers and packed bytes are bit sequences, most significant
  bit first. Tick counts, byte lengths and parsed numbers keep the 32-bit or 8-bit width of the code.
- A queue's item size, its length and the number of tasks are parameters.

What the proofs brought to light in the code, each stated as a lemma or contract:

- An overwriting send to a full queue of item size zero and length one counts a second message:
  `prvCopyDataToQueue` reduces the count before adding to it only when the item size is not zero
  (`QueueRing.Queue.CopyDataToQueue` says exactly when the queue stays valid, `QueueRing.OverwriteTwice`
  exhibits the case).
- `xQueueGenericReset` wakes one sender although the whole queue becomes free
  (`QueueProtocol.ResetKeepsSendBoundIff`). A run without another reset can then leave a sender asleep in
  front of an unlocked queue with room and no wake-up due, if and only if more than one sender slept and
  the queue has more places than there are senders on their way (`QueueProtocol.ResetLosesIff`);
  `QueueProtocol.ResetLosesSender` is such a run from the start.
- The dispatch arm for pended callbacks restores no bits, so a thread-flag bit taken together with them is
  neither acted on nor kept (`EventLoop.ThreadFlagLostIff` says exactly when).
- A delay of zero ticks, which the co-routine macros never request, is carried into the overflow list when
  it is made on the last tick before the overflow (`CoRoutines.ZeroDelay`, `CoRoutines.ZeroDelayEndsIff`).
- A periodic timer with interval zero makes the expiry code divide by zero. Running expired timers leads
  there if and only if an active periodic timer has interval zero (`LoopTimers.DividesIff`), and serving a
  request brings this about if and only if it starts a periodic timer with interval zero
  (`LoopTimers.ServedDividesIff`); `LoopTimers.ZeroPeriodDivides` is the shortest run.
- `bit_lib_add_parity` sees only the last 32 bits of a group; longer groups can get the wrong parity bit
  (`Parity.LongBlockParity` gives the exact condition, `Parity.LongBlockFails` a group of 33 bits).
- The comment in `face_wrap` says that whitespace-only text makes no lines; two line breaks and nothing else
  make two empty lines. `FaceWrap.Wrap` states the exact condition, and which lines there are, following
  the code.

## Model

| member | source | states |
|---|---|---|
| HeapBlocks.WantedSize | furi/core/memmgr_heap.c:324-350 | the request plus header, rounded up to the alignment, within 32 bits; zero exactly when there is no such size |
| HeapBlocks.FirstFit | furi/core/memmgr_heap.c:369-384 | the lowest free block that is large enough, and no smaller index qualifies |
| HeapBlocks.AllocateKeeps | furi/core/memmgr_heap.c:392-435 | taking (and splitting) a free block keeps tiling, coalescing and the free-byte sum |
| HeapBlocks.FreeKeeps | furi/core/memmgr_heap.c:472-529 | releasing a block merges it on both sides, keeps tiling and the free-byte sum, and leaves other live blocks alone |
| HeapBlocks.FreeUndoesAllocate | furi/core/memmgr_heap.c:392-420 | freeing the block just taken restores the exact previous blocks, split or not |
| HeapBlocks.MallocSucceedsIff | furi/core/memmgr_heap.c:324-384 | malloc succeeds exactly when the rounded size exists and is at most the largest free block; failing changes nothing |
| HeapBlocks.MallocAddsOneBlock | furi/core/memmgr_heap.c:384-437 | exactly one live block is added, it holds the request behind its header, all other live blocks are unchanged |
| HeapBlocks.MallocBlockSize | furi/core/memmgr_heap.c:392-428 | the block handed out has the rounded size exactly, unless the free block it comes from has at most 16 bytes more, all of which it then gets; the free bytes fall by its size |
| HeapBlocks.FreshHeapPacks | furi/core/memmgr_heap.c:368-437 | any requests a fresh heap has room for are laid out back to back from its start |
| HeapBlocks.MallocTakesLowest | furi/core/memmgr_heap.c:369-384 | no free block below the one taken was large enough |
| HeapBlocks.StepKeeps | furi/core/memmgr_heap.c:311-529 | every malloc and free keeps tiling, alignment, coalescing, accounting and the minimum-ever bound |
| HeapBlocks.RunKeeps | furi/core/memmgr_heap.c:311-529 | the same over every run |
| HeapBlocks.MinimumFollows | furi/core/memmgr_heap.c:422-428 | over every run without a reset the minimum-ever value falls to the smallest free byte count of the run, and no further |
| HeapBlocks.MinimumSinceReset | furi/core/memmgr_heap.c:537-544 | after a reset, in every run, the minimum-ever value is the smallest free byte count since |
| HeapBlocks.InitKeeps | furi/core/memmgr_heap.c:567-610 | the fresh heap satisfies the invariant |
| HeapBlocks.ReachableLiveBlocks | furi/core/memmgr_heap.c:311-529 | in every reachable state live blocks are aligned, inside the heap and pairwise disjoint |
| HeapBlocks.NothingLive | furi/core/memmgr_heap.c:613-669 | with nothing live the heap is the single free block of a fresh heap |
| HeapBlocks.FreeingAllRestoresHeap | furi/core/memmgr_heap.c:472-669 | from any reachable state, freeing every live block in any order restores the fresh heap |
| HeapBlocks.FreeUndoesMalloc | furi/core/memmgr_heap.c:311-529 | malloc followed by free of its pointer is the identity on blocks and free bytes |
| Heap.AllocateChain | furi/core/memmgr_heap.c:392-417 | the link writes take exactly one block out of the free chain and put the cut-off rest in its place |
| Heap.FreeChainAlone | furi/core/memmgr_heap.c:613-669 | linking a released block in behind an allocated neighbour keeps the chain in address order |
| Heap.FreeChainMerged | furi/core/memmgr_heap.c:613-669 | merging a released block into its left neighbour keeps the chain |
| Heap.FindFit | furi/core/memmgr_heap.c:369-384 | the list walk finds the first fitting block and the header before it, or the end marker |
| Heap.TakeHeaders | furi/core/memmgr_heap.c:392-435 | exactly which headers the allocation rewrites |
| Heap.TakeBlock | furi/core/memmgr_heap.c:392-435 | after the writes the headers and links represent the blocks of the specification |
| Heap.FindInsertionPoint | furi/core/memmgr_heap.c:618-624 | the loop stops at the last free header below the block |
| Heap.LinkForward | furi/core/memmgr_heap.c:641-668 | the released block is merged with an adjacent right neighbour or linked in front of it |
| Heap.InsertMerged | furi/core/memmgr_heap.c:630-669 | a free left neighbour grows over the block, and over the right one if that is free too |
| Heap.InsertAlone | furi/core/memmgr_heap.c:637-669 | a block without a free left neighbour is linked in behind the last free header below it |
| Heap.InsertBlock | furi/core/memmgr_heap.c:613-669 | the free list again runs through exactly the free blocks, merged both ways |
| Heap.ReleaseBlock | furi/core/memmgr_heap.c:472-529 | the header work of a free on an allocated block; a block that is not allocated is refused |
| Heap.WalkStats | furi/core/memmgr_heap.c:680-705 | largest, smallest and number of free blocks from the list walk |
| Heap.StatsMean | furi/core/memmgr_heap.c:672-707 | the reported smallest and largest sizes are those of free blocks and bound all others |
| Heap.Allocator.constructor | furi/core/memmgr_heap.c:168-174 | the statics before the first allocation |
| Heap.Allocator.Lo | furi/core/memmgr_heap.c:573-580 | the heap begins at the first aligned address |
| Heap.Allocator.Hi | furi/core/memmgr_heap.c:593-596 | and ends at the last aligned address that leaves room for the end marker |
| Heap.Allocator.HeapInit | furi/core/memmgr_heap.c:567-610 | one free block over the whole aligned heap |
| Heap.Allocator.Take | furi/core/memmgr_heap.c:384-437 | taking a given block: the whole new state |
| Heap.Allocator.AllocateFirst | furi/core/memmgr_heap.c:368-437 | the first block that fits is taken, or nothing changes and the end marker is returned |
| Heap.Allocator.Malloc | furi/core/memmgr_heap.c:311-469 | the pointer or the crash outcome, and the whole new state, equal to the specification's malloc |
| Heap.Allocator.Free | furi/core/memmgr_heap.c:472-529 | the new state equals the specification's free; only a live pointer passes the assertion |
| Heap.Allocator.ResetMinimum | furi/core/memmgr_heap.c:542-544 | the minimum-ever value becomes the current one, nothing else changes |
| Heap.Allocator.GetHeapStats | furi/core/memmgr_heap.c:672-710 | the reported figures are those of the blocks |
| QueueRing.ItemsAppend | lib/FreeRTOS-Kernel/queue.c:2203-2216 | writing the slot behind the last item appends to the represented sequence |
| QueueRing.ItemsPrepend | lib/FreeRTOS-Kernel/queue.c:2217-2229 | writing the slot last read and stepping back prepends |
| QueueRing.ItemsDrop | lib/FreeRTOS-Kernel/queue.c:2258-2276 | stepping over the oldest item drops it |
| QueueRing.Queue.constructor | lib/FreeRTOS-Kernel/queue.c:494-537 | a new queue is valid and empty |
| QueueRing.Queue.Reset | lib/FreeRTOS-Kernel/queue.c:296-360 | a reset queue is valid and empty |
| QueueRing.Queue.CopyDataToQueue | lib/FreeRTOS-Kernel/queue.c:2175-2255 | back appends, front prepends, overwrite replaces; exactly when the count stays within the length |
| QueueRing.Queue.CopyDataFromQueue | lib/FreeRTOS-Kernel/queue.c:2258-2276 | the oldest item is copied out and the read offset steps on |
| QueueRing.Queue.Send | lib/FreeRTOS-Kernel/queue.c:835-960 | an item is accepted exactly when there is room or it overwrites, and lands where its position says |
| QueueRing.Queue.Receive | lib/FreeRTOS-Kernel/queue.c:1378-1440 | the head is returned and removed, or nothing changes |
| QueueRing.Queue.Peek | lib/FreeRTOS-Kernel/queue.c:1731-1799 | the head is returned and nothing changes |
| QueueRing.Queue.Perform | lib/FreeRTOS-Kernel/queue.c:835-1799 | a history of sends, receives and peeks on the byte buffer computes the history on sequences |
| QueueRing.FirstInFirstOut | lib/FreeRTOS-Kernel/queue.c:835-1518 | over every history of back sends, receives and peeks, items come out in the order they went in |
| QueueRing.ItemsConserved | lib/FreeRTOS-Kernel/queue.c:835-1518 | over every history of sends to either end and receives, no item is lost, made up or duplicated |
| QueueRing.FrontsComeFirst | lib/FreeRTOS-Kernel/queue.c:2203-2229 | after any sends to both ends, items come out in this order: those sent to the front, last one first, those that were there, those sent to the back in the order sent |
| QueueRing.OverwriteIsMailbox | lib/FreeRTOS-Kernel/queue.c:2231-2252 | over every history of overwrites, receives and peeks, a queue of length one holds the last value written unless it has been taken |
| QueueRing.OverwriteTwice | lib/FreeRTOS-Kernel/queue.c:2186-2252 | two overwrites of a queue of one empty item leave it with two items counted |
| QueueProtocol.StepKeeps | lib/FreeRTOS-Kernel/queue.c:835-1518 | every step of every task and interrupt keeps list, lock and wake-up invariants |
| QueueProtocol.RunKeeps | lib/FreeRTOS-Kernel/queue.c:835-1518 | the same over every interleaving, with the send-side bound when there is no reset |
| QueueProtocol.NoLostReceiver | lib/FreeRTOS-Kernel/queue.c:1378-1518 | while a receiver is blocked the messages never outnumber the wake-ups still due; unlocked with none due, the queue is empty |
| QueueProtocol.NoLostSender | lib/FreeRTOS-Kernel/queue.c:835-1044 | the same for blocked senders and free places, in runs without reset |
| QueueProtocol.SaturatedUnlockWakesAll | lib/FreeRTOS-Kernel/queue.c:251-293 | a lock count saturated at the number of tasks loses nothing: the unlock wakes every receiver |
| QueueProtocol.ResetKeepsSendBoundIff | lib/FreeRTOS-Kernel/queue.c:296-360 | the exact condition under which a reset keeps the send-side bound |
| QueueProtocol.ResetLosesIff | lib/FreeRTOS-Kernel/queue.c:296-360 | after a reset some run without another one loses a wake-up, if and only if more than one sender slept and there are more places than senders on their way |
| QueueProtocol.ReachableResetLosesIff | lib/FreeRTOS-Kernel/queue.c:296-360 | the same for every reset in every run |
| QueueProtocol.ResetLosesSender | lib/FreeRTOS-Kernel/queue.c:325-330 | a run from the start at whose end, after a reset, a sender sleeps before a queue with room and no wake-up is due |
| QueueProtocol.CallBlocks | lib/FreeRTOS-Kernel/queue.c:966-1498 | a receive or a peek on an empty queue and a send to a full one, each with a block time, go to sleep on their list |
| QueueProtocol.CheckMeans | lib/FreeRTOS-Kernel/queue.c:845-1459 | a check returns at once unless the queue is stuck and there is time left; it passes exactly if the queue is not stuck, and then moves one item |
| QueueProtocol.ReturnsInEveryRun | lib/FreeRTOS-Kernel/queue.c:835-1879 | in every run a call returns empty or full only if it had no block time or its time has run out, and a receive or peek then leaves an empty queue; a call that passes has taken, seen or added exactly one item |
| QueueProtocol.SleepersAreWilling | lib/FreeRTOS-Kernel/queue.c:966-1498 | in every run a task on an event list had a block time that has not been found used up |
| QueueProtocol.OnlyPassingMoves | lib/FreeRTOS-Kernel/queue.c:835-1970 | only a call that passes, an interrupt or a reset changes the number of messages |
| QueueProtocol.MessagesConserved | lib/FreeRTOS-Kernel/queue.c:835-1970 | in every run without a reset the messages in the queue are those added less those removed |
| QueueProtocol.PassingWakesOne | lib/FreeRTOS-Kernel/queue.c:926-1434 | a call that passes takes one waiter off the other list, if there is one, and nobody else |
| QueueProtocol.IsrSendMeans | lib/FreeRTOS-Kernel/queue.c:1047-1209 | a post from an interrupt adds one message if there is room, and wakes one receiver or counts one more while the queue is locked |
| QueueProtocol.IsrReceiveMeans | lib/FreeRTOS-Kernel/queue.c:1882-1970 | a receive from an interrupt removes one message if there is one, and wakes one sender or counts |
| QueueProtocol.SecondLook | lib/FreeRTOS-Kernel/queue.c:1000-1042 | with the queue locked: time up makes a send return full and a receive or peek look once more; a changed queue is tried again; neither enqueues |
| QueueProtocol.LastLookMeans | lib/FreeRTOS-Kernel/queue.c:1500-1516 | after its time a receive or peek returns exactly if the queue is empty, otherwise it tries once more |
| QueueProtocol.TimeOutWakes | lib/FreeRTOS-Kernel/tasks.c:2791-2808 | a time-out takes the task, and only it, off its list, and it can go on to check again |
| QueueProtocol.UnlockLoop | lib/FreeRTOS-Kernel/queue.c:2279-2396 | the loop takes one waiter off per count until either runs out |
| QueueProtocol.KeepPostLocked | lib/FreeRTOS-Kernel/queue.c:1191-1196 | a post to a locked queue raises the lock count up to the number of tasks, and that keeps every invariant and the wake-up bounds |
| QueueProtocol.KeepIsrReceive | lib/FreeRTOS-Kernel/queue.c:1882-1970 | a receive from an interrupt keeps all invariants |
| QueueProtocol.KeepTestQueue | lib/FreeRTOS-Kernel/queue.c:1469-1498 | looking again with the queue locked keeps every invariant, the wake-up bound of a task about to enqueue itself included |
| EventLoop.StepKeeps | furi/core/event_loop.c:104-601 | every step of the loop, its callbacks and the producers keeps all invariants |
| EventLoop.RunKeeps | furi/core/event_loop.c:104-601 | the same over every interleaving |
| EventLoop.NoLostWakeup | furi/core/event_loop.c:104-191 | if the level of a level-triggered subscription is true, its item waits, is being dispatched, or a producer has yet to notify |
| EventLoop.DueCallbacksStart | furi/core/event_loop.c:95-156 | in every run each item taken off the waiting list is looked at once, in that order, and a callback starts exactly for each one that is edge-triggered or whose level is then true |
| EventLoop.WaitingItemRuns | furi/core/event_loop.c:143-191 | from the blocking point the loop left to itself starts the callback of every due item on its waiting list, wherever it is on the list |
| EventLoop.RaisedCallbackRuns | furi/core/event_loop.c:104-191 | in every run, at a blocking point without stop request, the callback of every level-triggered subscription to a queue with a message, or with room, will run, unless its notification is still to come |
| EventLoop.NotifiedEdgeRuns | furi/core/event_loop.c:95-102 | and that of every edge-triggered subscription once its link is notified |
| EventLoop.EdgeRunsOncePerNotice | furi/core/event_loop.c:95-102 | over every run the callback of an edge-triggered subscription starts no more often than its link is notified |
| EventLoop.PutBackIff | furi/core/event_loop.c:104-191 | when a dispatch ends the item goes back on the list exactly if it is level-triggered, its level was still true after the callback and it was not unsubscribed there |
| EventLoop.NoCallbackOnceUnsubscribed | furi/core/event_loop.c:446-482 | in every run, no callback of an item starts once it is unsubscribed |
| EventLoop.QuietLoopCatchesUp | furi/core/event_loop.c:193-264 | a loop with nothing on its waiting list serves all timer requests and runs everything that was pended |
| EventLoop.ComesBack | furi/core/event_loop.c:169-264 | from every phase of every run, the loop left to itself comes back to its blocking point |
| EventLoop.SleepsIff | furi/core/event_loop.c:222-264 | the loop sleeps exactly while it has no bit and its time has not run out |
| EventLoop.StopsIff | furi/core/event_loop.c:231-236 | the loop stops exactly when it takes a stop request, which comes before everything else |
| EventLoop.BlockedLoopIsNotified | furi/core/event_loop.c:222-229 | when the loop is about to block and no producer is half-way, a true level has its bit set |
| EventLoop.BlockingPointFlags | furi/core/event_loop.c:158-206 | at every blocking point queued work has its notification bit set |
| EventLoop.HeldBitsReturn | furi/core/event_loop.c:201-206 | bits taken with an event or a timer request come back |
| EventLoop.ThreadFlagLostIff | furi/core/event_loop.c:232-249 | a thread-flag bit is lost if and only if pended work is taken with it and neither an event nor a timer request |
| EventLoop.NeverCrashes | furi/core/event_loop.c:222-264 | the crash arm of the dispatch and the link-slot checks of subscribe and unsubscribe never fail |
| EventLoop.PendedRunInOrder | furi/core/event_loop.c:193-199 | in every run the pended callbacks that have started are the first of those pended, in order, each once; all of them when nothing is pending |
| EventLoop.ItemLifetime | furi/core/event_loop.c:118-141 | an item is freed at most once and never while subscribed, linked, waiting or in its own callback; with no dispatch under way exactly the items no longer subscribed have been freed |
| EventLoop.LoopNoticed | furi/core/event_loop.c:104-141 | no step of the dispatcher lets go of an item whose level it saw true |
| EventLoop.OperateNoticed | furi/core/message_queue.c:57-141 | a queue operation leaves a notification in flight for every level it may have raised |
| EventLoop.MessagesCounted | furi/core/message_queue.c:57-141 | in every run without a reset a queue holds what was put less what was taken, within its capacity |
| EventLoop.LinkNotifyNoticed | furi/core/event_loop.c:587-601 | the link notification puts the item on the waiting list whenever its level is true |
| EventLoop.SubscribeNoticed | furi/core/event_loop.c:316-359 | subscribing to a source whose level is already true puts the item on the waiting list |
| EventLoop.SubscribeMeans | furi/core/event_loop.c:316-359 | subscribing makes one new item with the object, direction and trigger asked for; other subscriptions stay |
| EventLoop.UnsubscribeMeans | furi/core/event_loop.c:446-482 | unsubscribing removes that object and its item from tree and waiting list; other subscriptions stay |
| EventLoop.UnsubscribeNoticed | furi/core/event_loop.c:446-482 | unsubscribing owes nothing to the other subscriptions |
| EventLoop.AddItemKeeps | furi/core/event_loop.c:316-359 | a new item joins tree and link slots alike |
| EventLoop.RemoveItemKeeps | furi/core/event_loop.c:446-482 | unsubscribing finds its own item in tree and link and removes it from both |
| EventLoop.FreeOrphan | furi/core/event_loop.c:118-141 | an item unsubscribed in its own callback is freed after the callback, once |
| LoopTimers.FindPlace | furi/core/event_loop_timer.c:29-43 | the backward search finds the place behind the last timer with no more time left |
| LoopTimers.ScheduledSorted | furi/core/event_loop_timer.c:26-51 | scheduling keeps the list ordered by remaining time |
| LoopTimers.RemainingPasses | furi/core/event_loop_timer.c:12-20 | as ticks pass, elapsed time grows and remaining time falls to zero, across the tick overflow |
| LoopTimers.AdvancedKeepsPhase | furi/core/event_loop_timer.c:131-136 | on expiry a periodic timer's start moves by whole intervals and its remaining time is positive |
| LoopTimers.EnqueueKeeps | furi/core/event_loop_timer.c:53-72 | a request keeps the queue equal to the timers with a request, each once |
| LoopTimers.CallsAsk | furi/core/event_loop_timer.c:53-203 | over any calls start, restart, stop and free the last one about a timer is the request it has, with its own interval |
| LoopTimers.LastCallDecides | furi/core/event_loop_timer.c:53-203 | whatever calls came before, once the loop has served the requests the timer runs from now with the interval of the last start, or with its old one after a restart, or does not run, or is gone |
| LoopTimers.ServeKeeps | furi/core/event_loop_timer.c:89-116 | serving a request keeps all invariants and never meets a timer without one |
| LoopTimers.FireKeeps | furi/core/event_loop_timer.c:118-144 | running the first expired timer keeps all invariants |
| LoopTimers.PassKeeps | furi/core/event_loop_timer.c:12-20 | the passing of ticks keeps the order |
| LoopTimers.StepKeeps | furi/core/event_loop_timer.c:53-144 | every step keeps order, active exactly for linked timers, and the request queue |
| LoopTimers.RunKeeps | furi/core/event_loop_timer.c:53-144 | the same over every run |
| LoopTimers.SleepIsSmallest | furi/core/event_loop_timer.c:78-87 | in every reachable state the sleep is the smallest remaining time over the active timers |
| LoopTimers.SleepIsExact | furi/core/event_loop.c:222-229 | no timer expires during the sleep, and at its end one has |
| LoopTimers.PhaseKept | furi/core/event_loop_timer.c:118-144 | over every run an untouched periodic timer keeps the phase it was started with |
| LoopTimers.NeverDividesByZero | furi/core/event_loop_timer.c:131-135 | when callers give periodic timers positive intervals, the division is safe in every reachable state |
| LoopTimers.DividesIff | furi/core/event_loop_timer.c:118-144 | running expired timers leads to the division by zero if and only if an active periodic timer has interval zero |
| LoopTimers.ServedDividesIff | furi/core/event_loop_timer.c:89-116 | serving a request brings that about if and only if it starts a periodic timer with interval zero |
| LoopTimers.ZeroPeriodDivides | furi/core/event_loop_timer.c:131-135 | making, starting with interval zero and serving a periodic timer reaches the division by zero |
| LoopTimers.TimerLoop.constructor | furi/core/event_loop_timer.c:150-171 | a loop without timers is valid |
| LoopTimers.TimerLoop.Request | furi/core/event_loop_timer.c:53-72 | a later request replaces an earlier one, with its own interval, and goes to the end; refused after a request to free |
| LoopTimers.TimerLoop.ScheduleTimer | furi/core/event_loop_timer.c:26-51 | the timer joins the list behind the last one with no more time left |
| LoopTimers.TimerLoop.ServeHead | furi/core/event_loop_timer.c:90-115 | one request is carried out in place, and the crash is not reached |
| LoopTimers.TimerLoop.ProcessTimerQueue | furi/core/event_loop_timer.c:89-116 | every request is carried out whatever their order, the queue is empty, the list is ordered, the crash is not reached |
| LoopTimers.TimerLoop.ProcessExpiredTimers | furi/core/event_loop_timer.c:118-144 | a timer runs exactly when some active one has expired; it keeps its phase or is over; the division by zero is an outcome, with its exact condition |
| EventGroups.SetExact | lib/FreeRTOS-Kernel/event_groups.c:533-626 | exactly the waiters met by the new bits leave, each with that value; exactly the union of their clear-on-exit bits is cleared |
| EventGroups.TestMeans | lib/FreeRTOS-Kernel/event_groups.c:693-727 | the condition holds exactly if all the bits, or any of them, are set |
| EventGroups.WaiterMeans | lib/FreeRTOS-Kernel/event_groups.c:573-600 | a waiter is met exactly if what its caller asked for holds, and its bits are cleared exactly if its caller asked for that |
| EventGroups.SetMeans | lib/FreeRTOS-Kernel/event_groups.c:555-621 | after a set a bit is there exactly if it was there or was set and no released waiter asked to clear it; exactly the waiters met are gone, handed the value that met them |
| EventGroups.WaitMeans | lib/FreeRTOS-Kernel/event_groups.c:339-405 | a wait returns at once exactly if met or without time, with the bits as they were, and clears only if met and asked to; otherwise it is on the list with what it asked for |
| EventGroups.SyncMeans | lib/FreeRTOS-Kernel/event_groups.c:213-253 | a rendezvous sets its bits as a set does, returns at once exactly if all it waits for is now set, clearing it, or without time; otherwise it is on the list |
| EventGroups.TimeoutMeans | lib/FreeRTOS-Kernel/event_groups.c:426-452 | a time-out takes one waiter off and leaves the bits; that task returns the bits of the group, clearing its own exactly if they then meet its condition and it asked to |
| EventGroups.StepBits | lib/FreeRTOS-Kernel/event_groups.c:194-626 | for every call: a bit is set afterwards exactly if it was set before or by the call and the call does not clear it |
| EventGroups.BitHistory | lib/FreeRTOS-Kernel/event_groups.c:194-626 | after every run a bit is set exactly if it was set, at the start or by a call, and not cleared since |
| EventGroups.OrderIrrelevant | lib/FreeRTOS-Kernel/event_groups.c:533-626 | who leaves and what is cleared do not depend on the order of the list |
| EventGroups.SetSettles | lib/FreeRTOS-Kernel/event_groups.c:533-626 | after a set no blocked waiter's condition is met |
| EventGroups.NewWaiterUnmet | lib/FreeRTOS-Kernel/event_groups.c:317-405 | a task that blocks in a wait has an unmet condition |
| EventGroups.SyncSettles | lib/FreeRTOS-Kernel/event_groups.c:194-314 | after a sync no blocked waiter's condition is met |
| EventGroups.FewerBits | lib/FreeRTOS-Kernel/event_groups.c:693-727 | clearing bits meets no condition that was unmet |
| EventGroups.StepSettles | lib/FreeRTOS-Kernel/event_groups.c:194-626 | set, wait, sync, clear and time-outs keep every blocked waiter unmet |
| EventGroups.RunSettles | lib/FreeRTOS-Kernel/event_groups.c:194-626 | the same over every run |
| EventGroups.ReleasedValue | lib/FreeRTOS-Kernel/event_groups.c:593-611 | the value a released waiter is handed meets its own condition and is marked as set by an event |
| EventGroups.ReleaseMet | lib/FreeRTOS-Kernel/event_groups.c:555-621 | the walk over the waiting list computes the specification in one pass |
| EventGroups.EventGroup.constructor | lib/FreeRTOS-Kernel/event_groups.c:148-185 | a new group has no bits and no waiters |
| EventGroups.EventGroup.SetBits | lib/FreeRTOS-Kernel/event_groups.c:533-626 | which bits, waiters and released tasks there are afterwards, and the whole new state equals the one-shot specification |
| EventGroups.EventGroup.ClearBits | lib/FreeRTOS-Kernel/event_groups.c:473-498 | the bits go and the value before is returned |
| EventGroups.EventGroup.WaitBits | lib/FreeRTOS-Kernel/event_groups.c:317-405 | when it returns at once and with what, which bits are cleared, and what is on the list when it blocks |
| EventGroups.EventGroup.Sync | lib/FreeRTOS-Kernel/event_groups.c:194-253 | which bits are set and cleared, when it returns at once and with what, and what is on the list when it blocks |
| KernelList.Position | lib/FreeRTOS-Kernel/list.c:144-184 | the place behind everything not greater and in front of the first greater value |
| KernelList.StableInsertion | lib/FreeRTOS-Kernel/list.c:140-147 | inserting there keeps the list sorted and comes behind all equals |
| KernelList.FindPlace | lib/FreeRTOS-Kernel/list.c:148-184 | the search ends for every value, the largest included, at the stable position |
| KernelList.InsertKeepsRing | lib/FreeRTOS-Kernel/list.c:186-189 | linking an item in keeps the circle whole in both directions |
| KernelList.RemoveKeepsRing | lib/FreeRTOS-Kernel/list.c:205-206 | joining an item's neighbours keeps the circle whole |
| KernelList.LinkBehind | lib/FreeRTOS-Kernel/list.c:186-193 | the pointer writes of the sorted insertion; other lists in the same memory are untouched |
| KernelList.LinkBefore | lib/FreeRTOS-Kernel/list.c:111-122 | the pointer writes of the insertion before the index |
| KernelList.LinkOut | lib/FreeRTOS-Kernel/list.c:205-221 | the pointer writes of a removal |
| KernelList.List.constructor | lib/FreeRTOS-Kernel/list.c:50-83 | an initialised list is valid and empty |
| KernelList.List.Insert | lib/FreeRTOS-Kernel/list.c:128-196 | the item lands at its stable sorted position, the index and the other items stay |
| KernelList.List.InsertEnd | lib/FreeRTOS-Kernel/list.c:98-125 | the item lands just before the index, going round the ring |
| KernelList.List.Remove | lib/FreeRTOS-Kernel/list.c:199-225 | exactly this item goes, an index on it steps back, the number left is returned |
| KernelList.List.NextEntry | lib/FreeRTOS-Kernel/include/list.h:285-296 | the index moves to the next item, stepping over the end marker |
| Tick32.Modular | lib/FreeRTOS-Kernel/croutine.c:163-199 | the two case-wise operations are addition and subtraction modulo 2^32 |
| CoRoutines.StepKeeps | lib/FreeRTOS-Kernel/croutine.c:163-281 | sleeping co-routines are due in the future, are not ready, and pending or waiting ones sleep |
| CoRoutines.RunKeeps | lib/FreeRTOS-Kernel/croutine.c:163-281 | the same over every run |
| CoRoutines.NotBefore | lib/FreeRTOS-Kernel/croutine.c:225-281 | in every run with fewer ticks than asked for and no event, the co-routine sleeps on |
| CoRoutines.WakesExactly | lib/FreeRTOS-Kernel/croutine.c:163-281 | a co-routine delayed d ticks and not readied by an event becomes ready at exactly the d-th tick, in every run |
| CoRoutines.NoEventNoReady | lib/FreeRTOS-Kernel/croutine.c:339-361 | in every run before its tick, a co-routine on no event list is not readied by the interrupt |
| CoRoutines.OnlyAnEventCutsShort | lib/FreeRTOS-Kernel/croutine.c:193-361 | a delay with an event, and only such a one, can be cut short by the interrupt |
| CoRoutines.TicksWake | lib/FreeRTOS-Kernel/croutine.c:225-281 | catching up on several ticks wakes exactly those due by then |
| CoRoutines.PutToSleepShows | lib/FreeRTOS-Kernel/croutine.c:168-191 | the choice between the two lists records the due time across the overflow |
| CoRoutines.EmptyAtSwap | lib/FreeRTOS-Kernel/croutine.c:236-246 | the current list is empty whenever the lists are swapped |
| CoRoutines.SwapShows | lib/FreeRTOS-Kernel/croutine.c:232-246 | counting up one tick, with the swap, keeps every due time |
| CoRoutines.ZeroDelay | lib/FreeRTOS-Kernel/croutine.c:168-191 | where a delay of no ticks puts the co-routine, and when the swap carries it over |
| CoRoutines.ZeroDelayEndsIff | lib/FreeRTOS-Kernel/croutine.c:231-278 | the next tick releases it if and only if that tick is not the overflow |
| CoRoutines.Scheduler.ReleaseDue | lib/FreeRTOS-Kernel/croutine.c:249-277 | the loop releases the due prefix of the list and takes its event items off their lists |
| CoRoutines.ReleasedAreDue | lib/FreeRTOS-Kernel/croutine.c:249-277 | the released ones are exactly those due at this tick |
| CoRoutines.HighestReady | lib/FreeRTOS-Kernel/croutine.c:297-307 | the search from the hint downwards finds the highest ready priority, or that nothing is ready |
| CoRoutines.Scheduler.OneTick | lib/FreeRTOS-Kernel/croutine.c:231-278 | one turn of the tick loop is one tick of the machine |
| CoRoutines.Scheduler.TakeHeadPending | lib/FreeRTOS-Kernel/croutine.c:207-221 | one pending co-routine leaves its delayed list and becomes ready |
| CoRoutines.Scheduler.constructor | lib/FreeRTOS-Kernel/croutine.c:319-336 | the initialised lists show an empty machine |
| CoRoutines.Scheduler.Create | lib/FreeRTOS-Kernel/croutine.c:103-160 | a new co-routine is ready |
| CoRoutines.Scheduler.AddToDelayedList | lib/FreeRTOS-Kernel/croutine.c:163-199 | the delay step of the machine for one tick or more; the lists for zero |
| CoRoutines.Scheduler.CheckDelayedList | lib/FreeRTOS-Kernel/croutine.c:225-281 | every tick since the last call is taken, also across the overflow |
| CoRoutines.Scheduler.RemoveFromEventList | lib/FreeRTOS-Kernel/croutine.c:339-361 | the interrupt moves a waiting co-routine to the pending list and compares priorities |
| CoRoutines.Scheduler.CheckPendingReadyList | lib/FreeRTOS-Kernel/croutine.c:202-222 | everything pending becomes ready and leaves its delayed list |
| CoRoutines.Scheduler.Schedule | lib/FreeRTOS-Kernel/croutine.c:284-316 | a ready co-routine of highest priority is picked, unless none is ready |
| Crc.FeedInjective | lib/bit_lib/bit_lib.c:408-413 | with an odd polynomial one step of the register merges no two states |
| Crc.FeedIsAddAndShift | lib/bit_lib/bit_lib.c:377-413 | feeding bit by bit equals adding the bits at the top and shifting, for streams that fit the register |
| Crc.BurstDetected | lib/bit_lib/bit_lib.c:364-420 | streams that differ only inside a window no wider than the register lead to different registers |
| Crc.ResidueIsZero | lib/bit_lib/bit_lib.c:364-420 | a stream followed by its register leaves zero, and for an odd polynomial nothing else does |
| Crc.RegisterIsRemainder | lib/bit_lib/bit_lib.c:377-413 | the register is the remainder of the polynomial division: the message moved up, with the initial value added, is a multiple of the polynomial plus the register |
| Crc.CrcIsRemainder | lib/bit_lib/bit_lib.c:364-420 | for every message and all parameters the CRC is that remainder, reflected and added to as asked for |
| Crc.ParametersMean | lib/bit_lib/bit_lib.c:364-420 | what initial value, reflected input, reflected output and xor-out each do to the CRC |
| Crc.OneByteDetected | lib/bit_lib/bit_lib.c:364-420 | equal-length messages that differ in one byte have different CRCs, for every odd polynomial and all other parameters |
| Crc.AppendedCrcIsZero | lib/bit_lib/bit_lib.c:364-420 | without reflection and xor-out, CRC zero exactly for a message followed by its own CRC |
| Crc.AddAndShift | lib/bit_lib/bit_lib.c:377-385 | the byte-wise inner loop feeds eight bits |
| Crc.Crc8 | lib/bit_lib/bit_lib.c:364-392 | the 8-bit loop computes the CRC of the bit stream |
| Crc.Crc16 | lib/bit_lib/bit_lib.c:394-420 | the 16-bit loop computes the CRC of the bit stream |
| Crc.ReverseFast8 | lib/bit_lib/bit_lib.c:357-362 | the three shuffles reverse a byte |
| Crc.ReverseFast16 | lib/bit_lib/bit_lib.c:336-355 | the masks and shifts reverse a 16-bit word |
| Parity.GetBit | lib/bit_lib/bit_lib.c:32-34 | the bit at a position of the packed bytes |
| Parity.SetBit | lib/bit_lib/bit_lib.c:14-20 | exactly that bit of the packed bytes changes |
| Parity.SetBits | lib/bit_lib/bit_lib.c:22-30 | the low bits of a byte are written to exactly those positions; lengths outside 1..8 are refused |
| Parity.ReverseBits | lib/bit_lib/bit_lib.c:263-274 | exactly the given range of bits is reversed in place; length zero is an outcome of its own |
| Parity.EmptyReversalLeaves | lib/bit_lib/bit_lib.c:264-267 | for length zero the upper index wraps and the loop leaves every buffer of up to 2^31 bits |
| Parity.BlockParity | lib/bit_lib/bit_lib.c:201-215 | blocks of up to 33 bits have an even (or odd) number of ones |
| Parity.MarkerBit | lib/bit_lib/bit_lib.c:203-208 | the marker bit behind a group is zero or one as asked for, and the group itself is unchanged |
| Parity.LongBlockParity | lib/bit_lib/bit_lib.c:193-215 | exactly when a longer block has the right parity |
| Parity.LongBlockFails | lib/bit_lib/bit_lib.c:193-215 | a group of 33 bits that gets the wrong parity bit |
| Parity.CopyGroup | lib/bit_lib/bit_lib.c:196-200 | a group is copied and shifted into the parity word |
| Parity.EmitBlock | lib/bit_lib/bit_lib.c:196-215 | a group is written followed by its parity bit |
| Parity.EmitGroups | lib/bit_lib/bit_lib.c:195-218 | the outer loop writes all groups with their parity bits |
| Parity.AddParity | lib/bit_lib/bit_lib.c:185-222 | groups and parity bits are written, nothing else of the destination changes, the bit count is returned |
| Parity.LoopEndsIff | lib/bit_lib/bit_lib.c:195-195 | the outer loop ends if and only if there is nothing to read or the parity length is at least two |
| Parity.PaddedMultiple | lib/bit_lib/bit_lib.c:195-196 | a source length that is a whole number of groups is read exactly |
| Parity.RemoveBitEveryNth | lib/bit_lib/bit_lib.c:224-250 | in place, the kept original bits end up at the front and nothing else changes; stopped by the remainder by zero exactly for n of zero with bits to read |
| Parity.RoundTrip | lib/bit_lib/bit_lib.c:185-250 | taking every n-th bit out of the emitted blocks gives the source bits back |
| Parity.RecoveredInPlace | lib/bit_lib/bit_lib.c:185-250 | on the bit sequences of one buffer, removal after insertion leaves the source bits where the blocks began |
| Parity.AddThenRemove | lib/bit_lib/bit_lib.c:185-250 | the two calls one after the other, the second in place: the source bits stand at the front, for up to 255 bits of blocks |
| BuddyCodec.EscapeInto | applications_user/nikita_buddy/nikita_buddy.c:145-168 | the escaped prompt is appended |
| BuddyCodec.SendPrompt | applications_user/nikita_buddy/nikita_buddy.c:361-379 | the next request number, modulo 2^32, and the document with it |
| BuddyCodec.Find | applications_user/nikita_buddy/nikita_buddy.c:173-174 | the first occurrence of a key |
| BuddyCodec.JsonUint | applications_user/nikita_buddy/nikita_buddy.c:172-189 | the number behind the first place of the key, or nothing |
| BuddyCodec.JsonText | applications_user/nikita_buddy/nikita_buddy.c:193-226 | the decoded string behind the first place of the key, cut to the buffer, or nothing; writes past the buffer exactly when it has no characters and a text is found |
| BuddyCodec.ReadString | applications_user/nikita_buddy/nikita_buddy.c:202-225 | the copying loop decodes up to the quote, the end or the buffer's end |
| BuddyCodec.UnescapeEscaped | applications_user/nikita_buddy/nikita_buddy.c:145-226 | decoding an escaped prompt gives it back without carriage returns, cut to the room there is |
| BuddyCodec.DigitsOfDecimal | applications_user/nikita_buddy/nikita_buddy.c:182-186 | reading back the digits of a printed number of any size gives the number modulo 2^32 |
| BuddyCodec.NumberBehindGap | applications_user/nikita_buddy/nikita_buddy.c:175-189 | a number is read behind anything but a digit, a closing brace or a quote; in front of a brace, a quote or the end there is none |
| BuddyCodec.TextBehindBlanks | applications_user/nikita_buddy/nikita_buddy.c:194-226 | a text is read behind any number of blanks after the first colon; without a colon or with anything but blanks in front of its quote there is none |
| BuddyCodec.EscapeTable | applications_user/nikita_buddy/nikita_buddy.c:145-168 | what the writer makes of each character anywhere in a text; the text stays on one line |
| BuddyCodec.DocumentIsCString | applications_user/nikita_buddy/nikita_buddy.c:369-374 | the document holds no zero character |
| BuddyCodec.RequestRoundTrip | applications_user/nikita_buddy/nikita_buddy.c:361-379 | for every prompt and number the scanners read both back from the document |
| BuddyCodec.AskAndRead | applications_user/nikita_buddy/nikita_buddy.c:172-379 | sending a prompt and scanning what was sent gives the request number and the prompt back |
| FaceWrap.WordsAppend | applications_user/nikita_buddy/nikita_face.c:57-63 | pieces that do not meet inside a word have the words of both |
| FaceWrap.NewlineStep | applications_user/nikita_buddy/nikita_face.c:50-56 | a line break ends the line and keeps all words |
| FaceWrap.SpaceStep | applications_user/nikita_buddy/nikita_face.c:57-61 | a blank separates words and never overflows the line |
| FaceWrap.WrapStep | applications_user/nikita_buddy/nikita_face.c:66-72 | wrapping drops at most one blank and no word |
| FaceWrap.FitStep | applications_user/nikita_buddy/nikita_face.c:73-74 | a word that fits is added whole and is not joined to the one before |
| FaceWrap.FullBeforeWord | applications_user/nikita_buddy/nikita_face.c:66-72 | where a line ends without a line break, it and the word behind it, cut to 20, have at least 20 characters, and the next line starts with that word |
| FaceWrap.BreaksEndLines | applications_user/nikita_buddy/nikita_face.c:50-56 | every line break of the text ends a line, as far as there are lines |
| FaceWrap.WrapAll | applications_user/nikita_buddy/nikita_face.c:49-75 | the loop keeps the words and ends lines only where they may end, until the text or the lines end |
| FaceWrap.MakeRoom | applications_user/nikita_buddy/nikita_face.c:66-72 | exactly when the word does not fit the line is finished, without one trailing blank, and a new one begun |
| FaceWrap.Wrap | applications_user/nikita_buddy/nikita_face.c:43-86 | lines fit, words are those of the text in order cut to 20, a prefix only when all lines are used; every line break ends a line and otherwise a line ends only in front of a word it has no room for, its text laid out blank by blank; exactly when there are no lines; line breaks alone make that many empty lines, up to 48 |
| FaceWrap.StepKeeps | applications_user/nikita_buddy/nikita_face.c:149-256 | text, mood, tick and keys keep shown within the text and scroll within its range |
| FaceWrap.RunKeeps | applications_user/nikita_buddy/nikita_face.c:149-256 | the same over every run |
| FaceWrap.ReachableInRange | applications_user/nikita_buddy/nikita_face.c:149-256 | from the start on, shown and scroll are in range |
| FaceWrap.TypedLineVisible | applications_user/nikita_buddy/nikita_face.c:238-252 | after every typing tick the line with the last revealed character is in the window, at its end unless it is the first line |
| FaceWrap.TypingEnds | applications_user/nikita_buddy/nikita_face.c:233-256 | n ticks reveal two characters each until everything is shown |
| FaceWrap.PressesScroll | applications_user/nikita_buddy/nikita_face.c:168-178 | presses of down and up move the window one line each as far as the last and the first line, and change nothing else |
| FaceWrap.EveryLineReachable | applications_user/nikita_buddy/nikita_face.c:168-178 | some number of presses of one key brings any line into view |
| FaceWrap.FollowLine | applications_user/nikita_buddy/nikita_face.c:242-248 | the loop finds the line being typed |
| FaceWrap.CountChars | applications_user/nikita_buddy/nikita_face.c:82-82 | the total is the sum of the line lengths |
| FaceWrap.FaceModel.ShowText | applications_user/nikita_buddy/nikita_face.c:229-231 | new lines laid out as said for the wrapping, nothing shown, scrolled to the top, not dismissed |
| FaceWrap.FaceModel.SetMood | applications_user/nikita_buddy/nikita_face.c:216-227 | talking starts the text over, other moods leave it |
| FaceWrap.FaceModel.Tick | applications_user/nikita_buddy/nikita_face.c:233-256 | the tick step, and whether there was something to type |
| FaceWrap.FaceModel.Press | applications_user/nikita_buddy/nikita_face.c:149-187 | the key step, and whether the key was handled or passed to the application |

## Left out

- The Once subscription flag of the event loop: with it the item is freed before its callback is read, so the lifetime results are for subscriptions without it.
- Event-loop contracts of mutexes, stream buffers, semaphores and event flags: their level and notify conditions differ; message queues are modelled. Thread flags are a notification bit without a payload, and their callback counts as user code whether it is subscribed or not.
- Several event loops that share one link: one loop is modelled.
- Event loop tick callback: its interval only shortens the sleep.
- QueueProtocol.NoLostSender: leaves out runs with a queue reset, because the reset wakes one sender only; `QueueProtocol.ResetKeepsSendBoundIff` says what a reset keeps.
- Queue sets, the registry, the co-routine queue functions, mutexes with priority inheritance, static creation and deletion of queues: they rest on scheduler code that is not part of this model.
- Delays cut short by xTaskAbortDelay: the kernel is built without it; a time-out leaves no block time.
- Priorities and order within the kernel's event lists: the protocol models keep sets, so every choice of waiter is covered.
- Contents of queue memory as seen by the protocol model: `QueueRing` models storage, `QueueProtocol` models counts and waiters.
- Heap tracing, the canary word and its exclusive-or of links, interrupt and address assertions, clearing of memory, `realloc` and `calloc`, allocation counters and the state reset function.
- Heap memory exhaustion outside the allocator: the two messages of its final check are outcomes.
- Event group deletion and the calls deferred from interrupts to the timer task.
- List integrity check words, list owners, and coverage markers.
- The order of co-routines within one priority: ready co-routines are a set; `KernelList.List.NextEntry` models the walk that rotates them.
- Event lists of co-routines: one set of waiting co-routines; which of them is the head of a list is the caller's choice.
- CoRoutines.Scheduler.AddToDelayedList: for a delay of no ticks states the lists only; what becomes of it is `CoRoutines.ZeroDelayEndsIff`.
- CoRoutines.Scheduler: interrupts that fall between two turns of one loop are steps of the abstract machine but not of the class methods.
- LoopTimers: ticks may pass only while no active timer's elapsed time wraps, the one assumption of the design; timer callbacks are further steps of the run.
- Parity.AddParity: leaves out aliased buffers, and a parity length below 2 with bits to read, for which the code does not end (`Parity.LoopEndsIff`).
- Parity.ReverseBits: does not say what the memory holds after length zero; the loop has left the buffer by then.
- Parity test functions: their sense of even is the opposite of the insertion's, so ones are counted instead.
- Reading and writing of multi-bit values, printing, regions, chunk and conversion helpers of the bit library.
- The other scanners of the app, files, clocks and view switching: the time stamp is a parameter.
- Drawing of the face, moods other than talking, and the frame counter.
- Wireless, radio, serial, storage, scripts and build files.
