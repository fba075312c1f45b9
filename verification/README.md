# A verified model of liblsp's primitives

liblsp is a small socket stack in C. This project models the hand-written concurrent and
pointer-level code it stands on, and proves what that code promises, or exactly when it
keeps the promise. `dafny verify dfyconfig.toml` checks everything.

## What is modelled

| files | what they model |
|---|---|
| `LspTypes.dfy`, `Ring.dfy` | return codes, `ALIGNED_SIZE`, the circular buffer shared by the two queue models |
| `ByteQueue.dfy` | the queue's storage: one byte block, slots a stride apart, packed or aligned, as a class over an array |
| `QueueMonitor.dfy`, `QueueFifo.dfy` | the blocking queue as a state machine over any number of threads: mutex, two condition variables, two waiter counters, ring |
| `QueueCauses.dfy` | why each call returns what it returns, and what a call can return |
| `QueueRest.dfy` | the same state machine left to itself: its own steps run out |
| `QueueRuns.dfy`, `QueueAsWritten.dfy` | the queue exactly as the source has it (one look at the guard, clear checks before it locks): who may use it without harm to its length and its order |
| `QueueWakeups.dfy` | lost wakeups in all four variants of those two choices, the source's among them |
| `EventGroup.dfy` | the event group as a state machine, as written |
| `IntrusiveList.dfy` | the circular doubly linked list, as objects with two pointers |
| `ListenOrder.dfy`, `PortTable.dfy` | the listening sockets of a port: the order as a sequence, the table of intrusive lists as a class |
| `RouteOrder.dfy`, `RouteTable.dfy`, `RouteRace.dfy` | the routing table: its meaning as a map, the intrusive list as a class, concurrent adds step by step |
| `ConnPool.dfy`, `ConnDrain.dfy`, `ConnTable.dfy`, `ConnPorts.dfy`, `ConnAsWritten.dfy` | freeing connections recursively through child queues: the function, its consequences, the array it runs on, the listening sockets it takes off their lists, and the recursion exactly as the source has it |
| `ConnRace.dfy` | concurrent allocation and freeing of pool slots, step by step |
| `PacketBuffer.dfy` | the packet buffer: four cursors, two redundant counters, the bytes |

A concurrent module describes one step of one thread by a function `Step` from a state and
an event to the next state, if there is one. All nondeterminism (who runs, whom a signal
wakes, timeouts, errors, stray wakeups) is in the events, so a run is a sequence of events
and `Exec` folds `Step` over it. Theorems about runs quantify over all event sequences and
over unboundedly many threads.

## As written and repaired

Where the source departs from its evident intent, the model carries both forms: a variant
flag selects the source's own branch, and a lemma whose name ends in `Iff` says exactly
when that branch is right. The repairs are:

- the queue looks at its guard again after a wakeup (`while` for `if`, lsp_queue.c:162, :207), and clear reads the waiter counters under the lock (:256-258);
- `hdl->tail = ++hdl->tail % n` is read as `(tail + 1) % n` (:186, :231);
- the list tests emptiness by `head->next == head` instead of `next == prev` (lsp_list.h:125-151);
- lsp_listen links at the end a socket that no listener is below (lsp_port.c:106-114), and writes `CONN_LISTEN` to the state, not to the type (:89-90);
- lsp_route_add stores the speed of a new route (lsp_routing.c:62) and scans inside the mutex (:48-54);
- lsp_conn_rxq_flush loops while the pop succeeds (lsp_conn.c:235), lsp_conn_free starts with `rc = LSP_ERR_NONE` (:208-212), and lsp_conn_alloc claims its slot before it unlocks (:121, :153) and scans the pool's own size (:114);
- lsp_conn_init returns with its pool: as written, control falls through from a successful set-up to the error labels, which free the pool it has just made (lsp_conn.c:97-101).

Code and documentation disagree in four places; the model follows the code. lsp_egroup.h
promises 0 when a wait times out, but the code returns (and clears) whatever is pending, for
a timeout of 0 as for one that expires.
lsp_buffer.h says a pull may adjust the tail, but the clipping before it makes that branch
dead. lsp_routing.h says an existing route is kept, but the code replaces it if the new one
is faster. lsp_queue.h says "length of queue" of what returns the capacity.

## Model

| member | source | states |
|---|---|---|
| LspTypes.AlignedSizeIsLeastMultiple | src/include/lsp_types.h:144 | ALIGNED_SIZE is the least multiple of the pointer size not below its argument |
| Ring.PutAppends | src/arch/posix/lsp_queue.c:182-187 | copying to the tail slot and advancing appends to the queued elements and disturbs none of them, across the wrap |
| Ring.TakeRemovesOldest | src/arch/posix/lsp_queue.c:227-232 | the head slot holds the oldest element, and advancing the head removes exactly it |
| ByteLayout.SlotInBlock | src/arch/posix/lsp_queue.c:29-35 | every slot of either layout lies inside the allocated block |
| ByteLayout.SlotsDisjoint | src/arch/posix/lsp_queue.c:29-35 | distinct slots never overlap |
| ByteLayout.StrideIsLeast | src/arch/posix/lsp_queue.c:29-35 | packed slots touch; aligned slots are the least whole number of words apart that holds an item |
| ByteLayout.WriteOneSlot | src/arch/posix/lsp_queue.c:182-183 | writing one slot changes that record and no byte of any other |
| ByteQueue.Queue.constructor | src/arch/posix/lsp_queue.c:90-138 | a new queue is an empty sequence of the given capacity and item size, for any capacity including 0 |
| ByteQueue.Queue.CopyIn | src/arch/posix/lsp_queue.c:182-183 | the byte copy is an update of one record |
| ByteQueue.Queue.CopyOut | src/arch/posix/lsp_queue.c:227-228 | the byte copy yields the record in the head slot |
| ByteQueue.Queue.Push | src/arch/posix/lsp_queue.c:151-194 | success iff the lock was had and there was room, then the bytes are appended; every other result, each named with its cause, changes nothing |
| ByteQueue.Queue.Pop | src/arch/posix/lsp_queue.c:196-239 | success iff the lock was had and there was an item, then the oldest bytes come back and are gone; otherwise nothing changes |
| ByteQueue.Queue.Clear | src/arch/posix/lsp_queue.c:253-264 | empties the queue, or refuses without change while somebody waits |
| ByteQueue.RunBoth | src/arch/posix/lsp_queue.c:94-97 | the packed and the aligned layout answer every sequence of calls alike, byte for byte |
| QueueMonitor.CountedStep | src/arch/posix/lsp_queue.c:166-168 | each step of any variant keeps the waiter counters equal to the number of threads between increment and decrement |
| QueueMonitor.InvStep | src/arch/posix/lsp_queue.c:151-239 | with the guard looked at again, each step keeps mutual exclusion, the ring, the counters and the wakeup invariant, unless a clear commits beside a parked pusher |
| QueueMonitor.MonitorInvariant | src/arch/posix/lsp_queue.c:151-264 | in every reachable state of any number of threads, clears included: at most one holder, `tail == (head + length) % size`, `0 <= length <= size`, exact counters, no lost wakeup |
| QueueMonitor.NoLostWakeup | src/arch/posix/lsp_queue.c:162-188 | with the mutex free, a parked popper means every item has its own signalled popper on the way, a parked pusher the same of every free slot |
| QueueMonitor.OnlyJustifiedSleep | src/arch/posix/lsp_queue.c:162-188 | if all threads are idle or parked, poppers are parked only on an empty queue and pushers only on a full one, so never both |
| QueueMonitor.Progress | src/arch/posix/lsp_queue.c:151-239 | while a thread is neither idle nor parked, some thread can take a step of its own: with QueueMonitor.OnlyJustifiedSleep, no deadlock |
| QueueRest.OwnStepsRunOut | src/arch/posix/lsp_queue.c:151-264 | in every variant and from every state, a run without new calls, failing locks, timeouts and stray wakeups has at most ten steps per thread |
| QueueRest.ComesToRest | src/arch/posix/lsp_queue.c:151-264 | from every reachable state of the repaired queue, such steps lead to a state in which everybody is idle or parked |
| QueueFifo.RunsAreQueueHistories | src/arch/posix/lsp_queue.c:151-264 | every run is a legal history of the sequential bounded queue (push, pop, clear), and the ring holds that queue's contents |
| QueueFifo.FirstInFirstOut | src/arch/posix/lsp_queue.c:182-188 | a history the sequential queue accepts has pushed == popped ++ contents, within capacity |
| QueueFifo.LinearizableFifo | src/arch/posix/lsp_queue.c:151-239 | in every interleaving, items pushed with success == items popped with success ++ ring contents, in order |
| QueueFifo.OneEffectIffSuccess | src/arch/posix/lsp_queue.c:158-193 | in every variant, a call past its commit has changed the ring exactly once and as asked, one that will return an error not at all |
| QueueFifo.ReturnTellsTheTruth | src/arch/posix/lsp_queue.c:189-193 | LSP_ERR_NONE is returned iff the call took effect, once and as asked, between call and return; an error means nothing changed |
| QueueCauses.ResultNamesItsCause | src/arch/posix/lsp_queue.c:151-264 | in every run of every variant, as an iff for each result: MUTEX, the lock failed; QUEUE_FULL or QUEUE_EMPTY, a call with timeout 0 found no room or no item; TIMEOUT, its wait timed out; INVALID, its wait failed; RESOURCE_IN_USE, some thread stood between increment and decrement when clear looked; NONE, nothing of the kind |
| QueueCauses.CanReturnIff | src/arch/posix/lsp_queue.c:151-264 | for every operation and timeout, some run returns a code iff it is success or one of the errors that fit them |
| QueueAsWritten.OneProducerOneConsumer | src/arch/posix/lsp_queue.c:162-187 | as written, one producer and one consumer, either of which may clear, keep the length in range in every run, the ring holds what the sequential queue holds, and without a clear pushed == popped ++ contents (no stray wakeups) |
| QueueAsWritten.AsWrittenSafeIff | src/arch/posix/lsp_queue.c:151-264 | length and order as written, for any capacity above 0 and any sets of pushing, popping and clearing threads: every run keeps the length in range, and every run is a history of the sequential queue, iff: with stray wakeups, nobody pushes or pops; without, one side is absent, or at most one thread pushes and at most one pops and either no third thread clears or the two are one thread. Who is woken is the subject of QueueWakeups |
| QueueRuns.StolenItem | src/arch/posix/lsp_queue.c:207-232 | two poppers and a pusher that look once: the run that takes the length to -1 and leaves everybody idle |
| QueueAsWritten.StolenSlot | src/arch/posix/lsp_queue.c:162-187 | two pushers and a popper: the run that overfills the ring |
| QueueAsWritten.ClearedItem | src/arch/posix/lsp_queue.c:253-264 | one pusher, one popper and a third thread that clears: the run that takes the length to -1 |
| QueueRuns.StrayPop | src/arch/posix/lsp_queue.c:207-232 | one popper alone that looks once, and a stray wakeup: the run that takes the length to -1 |
| QueueAsWritten.StrayPush | src/arch/posix/lsp_queue.c:162-187 | one pusher alone and a stray wakeup: the run that overfills the ring |
| QueueWakeups.WakeupsSafeIff | src/arch/posix/lsp_queue.c:151-264 | for every variant, any capacity above 0 and any threads, no run loses a wakeup iff the check of clear is inside the lock or nobody clears beside a different thread that pushes, and threads look again or one side is absent or at most one thread pops and there are no stray wakeups |
| QueueWakeups.AsWrittenWakeupsIff | src/arch/posix/lsp_queue.c:151-264 | the same for the source's own variant: both conditions are needed |
| QueueWakeups.EarlyCheckSafeIff | src/arch/posix/lsp_queue.c:256-262 | the same for a queue that looks again but checks before it locks in clear |
| QueueWakeups.AsWrittenUsableIff | src/arch/posix/lsp_queue.c:151-264 | as written, every run is first in, first out and no run loses a wakeup iff QueueAsWritten.AsWrittenSafeIff's condition holds and nobody clears beside a different thread that pushes |
| QueueWakeups.PusherForgotten | src/arch/posix/lsp_queue.c:256-262 | in every variant that checks before it locks: a pusher parked for ever on an empty queue with everybody else idle |
| QueueWakeups.HarmlessDeadlock | src/arch/posix/lsp_queue.c:151-264 | as written, one producer and one consumer that also clears, harmless to length and order, both parked for ever on an empty queue |
| QueueWakeups.PusherMisled | src/arch/posix/lsp_queue.c:151-194 | in every variant that looks once, two poppers or a stray wakeup: a pusher parked for ever on a queue of length -1, which it takes for full |
| EventGroup.NoEventLost | src/arch/posix/lsp_egroup.c:215-240 | over every run, any group of bits ever set is still pending or was returned whole by one later wait |
| EventGroup.NoEventInvented | src/arch/posix/lsp_egroup.c:215-240 | over every run, every pending or returned bit was set by somebody |
| EventGroup.TakenAtMostOnce | src/arch/posix/lsp_egroup.c:215-240 | over every run, a bit is returned and cleared at most as often as it was set, counting the setting still pending: one event serves one waiter |
| EventGroup.PendingIff | src/arch/posix/lsp_egroup.c:215-240 | over every run, a bit is pending iff some set or-ed it in and no exit since has cleared it: all bits if it clears on exit, else those of its mask |
| EventGroup.ParkedMeansUnsatisfied | src/arch/posix/lsp_egroup.c:139-190 | except between the or and the broadcast of one set, every thread parked without a timeout waits for bits that are not there |
| EventGroup.ReturnedMeansSatisfied | src/arch/posix/lsp_egroup.c:139-226 | an error-free wait without a timeout returns a value in which its condition holds, however many waiters one broadcast wakes |
| EventGroup.SatisfiedBitByBit | src/arch/posix/lsp_egroup.c:141-180 | an all-wait is satisfied iff every bit of its mask is there, an any-wait iff one is |
| EventGroup.BroadcastWakesAll | src/arch/posix/lsp_egroup.c:241 | nobody parked at a broadcast is parked after it, whatever its timeout |
| EventGroup.NoSetSinceParked | src/arch/posix/lsp_egroup.c:240-241 | over every run, outside the time between an or and its broadcast, no bits have been set since any parked thread parked |
| EventGroup.OnlyTheFirstSleepIsBlind | src/arch/posix/lsp_egroup.c:154-169 | over every run, a wait that has looked at the bits after a sleep, with or without a timeout, sleeps on only while its condition is false |
| EventGroup.WaitEndsForAReason | src/arch/posix/lsp_egroup.c:139-213 | over every run, a wait fails iff its sleep did; otherwise its condition held when it left, or its timeout was 0 and it never slept, or its finite time had run out; none without a finite timeout ever times out |
| EventGroup.SleepsOnTrueConditionIff | src/arch/posix/lsp_egroup.c:154-169 | some thread in some run can sleep in a wait while its bits are there iff the wait has a finite timeout (and can be satisfied at all): that branch parks before it looks |
| EventGroup.AlwaysSatisfiedIff | src/arch/posix/lsp_egroup.c:139-226 | every error-free return of a wait, in every run and by any thread, satisfies it iff it has no timeout or asks for all bits of an empty mask: a timeout of 0 and an expired one return whatever is pending |
| EventGroup.ReturnsTheWholeWord | src/arch/posix/lsp_egroup.c:215-226 | over every run, a wait that had the lock returns, however it ended, exactly the bits pending when it left, in the sense of EventGroup.PendingIff |
| EventGroup.SetTakesEffectIffLocked | src/arch/posix/lsp_egroup.c:229-247 | over every run, a set call or-s its mask in exactly once if it got the lock and never if it did not, and returns exactly the bits then pending |
| EventGroup.SetCannotTell | src/arch/posix/lsp_egroup.c:229-247 | for any mask, two runs in which the same call returns the same word, once having taken effect and once not |
| IntrusiveList.Node.HeadInit | src/include/lsp_list.h:45-49 | makes a well-formed empty list |
| IntrusiveList.Link | src/include/lsp_list.h:58-64 | four pointer writes insert the node between two neighbours of the ring and touch nothing else |
| IntrusiveList.LinkUpTo | src/include/lsp_list.h:58-64 | stopped after any of the four writes: the forward pointers spell the old list until the last, then the new one; the source's test sees something in an empty list after the first, second and third |
| IntrusiveList.WalkDuringInsert | src/include/lsp_list.h:125-138 | a reader without the lock (lsp_routing.c:95) visits the old list or the new one; as written, in the middle of the first insertion, it takes the head for an element |
| IntrusiveList.InsertAfter | src/include/lsp_list.h:94-97 | inserts behind a node or the head: exactly the expected sequence |
| IntrusiveList.InsertBefore | src/include/lsp_list.h:105-108 | inserts before a node or the head: exactly the expected sequence |
| IntrusiveList.Add | src/include/lsp_list.h:72-75 | prepends |
| IntrusiveList.AddTail | src/include/lsp_list.h:83-86 | appends |
| IntrusiveList.Delete | src/include/lsp_list.h:115-119 | removes exactly that node, which keeps its own pointers |
| IntrusiveList.InsertThenDelete | src/include/lsp_list.h:58-119 | inserting a node anywhere and deleting it restores every pointer |
| IntrusiveList.Move | src/include/lsp_list.h:58-119 | moving a node between two lists changes those two as expected and leaves a third, disjoint list as it was |
| IntrusiveList.ContentsUnique | src/include/lsp_list.h:25-28 | the pointers of a ring determine its contents |
| IntrusiveList.EmptyAsWrittenIff | src/include/lsp_list.h:125-126 | the source's test says empty iff there is at most one element; `next == head` iff there is none |
| IntrusiveList.ForEach | src/include/lsp_list.h:135-138 | terminates and visits the contents in order; as written it visits nothing of a list of one |
| IntrusiveList.ForEachBack | src/include/lsp_list.h:148-151 | the same in reverse |
| ListenOrder.ListenedSorted | src/lsp_port.c:100-115 | linking a socket keeps the order by priority |
| ListenOrder.ListenedOfPriority | src/lsp_port.c:100-115 | the new socket comes last among its equals |
| ListenOrder.StableByPriority | src/lsp_port.c:100-115 | after any history of listens and closes the list is sorted by non-increasing priority, each priority in order of arrival |
| ListenOrder.LinkedExactlyOnce | src/lsp_port.c:100-115 | each live listener is linked exactly as often as it is live |
| ListenOrder.StableOrderUnique | src/lsp_port.c:106-114 | those two properties determine the list |
| ListenOrder.AsWrittenRightIff | src/lsp_port.c:100-115 | on any list, the code as written links a new socket in the right place iff the list is empty or somebody on it has a lower priority; it links it at all iff that holds or the list has at most one element |
| PortTable.FindLower | src/lsp_port.c:107-114 | the search finds the first listener with a strictly lower priority |
| PortTable.LinkByPriority | src/lsp_port.c:100-115 | the linking half of listen on the heap, in both variants |
| PortTable.Ports.constructor | src/lsp_port.c:33-56 | one empty list per port, all ports closed |
| PortTable.Ports.Listen | src/lsp_port.c:75-122 | the result code, the new list of its port and every other port unchanged, in both variants and for bad ports and no memory; the socket keeps its address, priority and port and gets type, state and backlog, field by field |
| PortTable.Ports.Replay | src/lsp_port.c:75-122 | after any program of listens and closes on different sockets, over any idle ports: on each port stand exactly the sockets that listen, by the priorities they came with and within one by arrival, their fields as they should be; and the list is the one ListenOrder speaks of |
| PortTable.Ports.Unlink | src/lsp_conn.c:179 | closing a listener takes exactly it off its port's list, nodes and payloads, and leaves every other port's |
| RouteOrder.UnknownRanksLast | src/include/lsp_routing.h:56 | -1, compared as uint32_t, ranks behind every other int |
| RouteOrder.UnsignedOrder | src/lsp_routing.c:75 | a speed that is not negative keeps its value; any two ints compare in their unsigned order |
| RouteOrder.AddUpdatesMap | src/lsp_routing.c:42-88 | an add keeps one entry per address, improves its own address and leaves every other as it was |
| RouteOrder.BestOfferWins | src/lsp_routing.c:42-102 | after any sequence of adds, an address is found iff it was offered, with the first of its least speeds |
| RouteOrder.LeastSpeedFound | src/lsp_routing.c:42-102 | with speeds of -1 and above, an address offered a known speed is found with the least of them, and the interface that offered it |
| RouteOrder.AddKeepsOnePerAddressIff | src/lsp_routing.c:47-66 | as written, an add keeps one entry per address iff it does not repeat the address of a lone route |
| RouteOrder.AsWrittenOnePerAddressIff | src/lsp_routing.c:42-88 | after any adds as written, whatever the unset speeds, the table has one entry per address iff there are fewer than two adds or the first two differ in address |
| RouteOrder.AsWrittenFindsAllIff | src/lsp_routing.c:42-102 | after any adds as written, the lookup as written finds every address offered iff the number of adds is not 1 |
| RouteOrder.AddRightIff | src/lsp_routing.c:47-86 | as written, an add does what it should iff it updates a route it can see, or the uninitialised speed happens to be right |
| RouteTable.Table.Scan | src/lsp_routing.c:48-52 | the list walk finds the first route for the address among those the macro shows |
| RouteTable.Table.Add | src/lsp_routing.c:42-88 | the heap operation is the sequence operation, in both variants, and fails without change for want of memory |
| RouteTable.Table.Find | src/lsp_routing.c:90-102 | the heap lookup is the sequence lookup, in both variants |
| RouteTable.Table.FindAfter | src/lsp_routing.c:42-102 | adds then a find on the heap: the interface of the first best offer, or none if nobody offered |
| RouteRace.LockedAddsAreSequential | src/lsp_routing.c:48-85 | with the scan inside the mutex, every interleaving of adders leaves the table of the sequential adds in the order of their writes |
| RouteRace.EveryCallAdds | src/lsp_routing.c:42-88 | in every run, a call that has returned made exactly one write, of its own offer; with the scan outside the mutex, one or none, and none only if the table had a speed at least as good when it compared |
| RouteRace.NoBetterSpeedIsLost | src/lsp_routing.c:75-84 | with the scan inside, an address is found, ever after any call for it has returned, with a speed at least as good as that call offered |
| RouteRace.UnlockedSafeIff | src/lsp_routing.c:48-67 | with the scan outside, no run doubles an address iff at most one thread ever adds |
| RouteRace.UnlockedSpeedSafeIff | src/lsp_routing.c:48-84 | with the comparison outside, every run finds for each offer written a speed at least as good iff at most one thread ever adds |
| RouteRace.WorseReplacesBetter | src/lsp_routing.c:75-84 | any two adding threads have the run that replaces a better speed by a worse one |
| ConnPool.FreeSettles | src/lsp_conn.c:206-228 | freeing ends with the connection free and drained; every entry popped on the way is too |
| ConnPool.FreeRefusedIff | src/lsp_conn.c:206-213 | a free is refused iff the connection is open without a receive queue; it is then closed and unlinked, and nothing else has happened |
| ConnDrain.EveryReachedIsFree | src/lsp_conn.c:206-228 | every connection the child queues lead to ends up CONN_FREE, drained, and with an empty receive queue if it was open; for any shape, with a destroyed queue read as empty |
| ConnDrain.OnlyReachedChange | src/lsp_conn.c:206-228 | no other connection changes |
| ConnDrain.FreeConserves | src/lsp_conn.c:217-240 | buffers only move from receive queues to lsp_buffer_free, entries only from child queues to calls of lsp_conn_free |
| ConnDrain.BuffersFreedOnce | src/lsp_conn.c:181-182 | a buffer is freed exactly as often as it is queued at an open connection reached |
| ConnDrain.CallsAreEntries | src/lsp_conn.c:217-220 | lsp_conn_free runs once on the root and once per entry reached |
| ConnDrain.SafeIff | src/lsp_conn.c:215-222 | no child queue is used after its destruction iff no server turns up twice among the root and the entries reached, and none that was freed before turns up at all |
| ConnPorts.UnlinkedOnce | src/lsp_conn.c:179 | one free takes off their lists exactly the open connections reached, each once |
| ConnPorts.FreeTakesOffTheReached | src/lsp_conn.c:165-228 | after any history of a port and one free, the port's list is what it was without the open connections reached, in the same order |
| ConnPorts.UnlinksMeetListsIff | src/lsp_conn.c:179 | every unlinking of a free finds its connection on a list, still, iff every open connection reached is on one |
| ConnTable.ScanRightIff | src/lsp_conn.c:114-119 | the search is right for every state of a pool of n slots iff its bound is n |
| ConnTable.AllocKeepsValidIff | src/lsp_conn.c:153-154 | an allocation leaves a pool that can be freed from iff the slot was not a server's before, since the type is not reset |
| ConnTable.AllocThenFree | src/lsp_conn.c:129-228 | allocating a slot and freeing it again gives it back, with nothing freed and no other slot touched; a closed connection's receive queue is not flushed |
| ConnAsWritten.FlushAsWritten | src/lsp_conn.c:230-240 | as written the flush ends iff the queue is not empty, dropping one buffer and freeing none; on an empty queue it frees garbage for ever |
| ConnAsWritten.CloseRunsTheFlush | src/lsp_conn.c:165-184 | the close as written hangs iff that loop never ends, and else leaves the queue the loop leaves |
| ConnAsWritten.FreedAloneIff | src/lsp_conn.c:206-228 | as written, a connection that is no server is freed iff it was free, or closed with the unset code happening to be 0, or open with something in its receive queue; the call hangs iff it was open with nothing in it |
| ConnAsWritten.AsWrittenReturnsIff | src/lsp_conn.c:206-240 | as written, with any unset codes, the recursion returns iff no connection it calls itself on is open with an empty receive queue; then exactly the connections called and not stuck (closed, code not 0) are free and drained, the open ones short of one buffer, no other slot has changed and no buffer has been freed |
| ConnAsWritten.AsWrittenUnlinks | src/lsp_conn.c:179 | as written, a free that returns takes off their lists exactly the open connections it called, each once, and returns the unset code iff it got stuck at once |
| ConnAsWritten.AsWrittenRightIff | src/lsp_conn.c:206-240 | as written the recursion does all that the repaired one does and nothing else iff every connection it calls itself on was free, or closed with the code happening to be 0 |
| ConnTable.Connections.constructor | src/lsp_conn.c:57-72 | a zeroed pool: every slot free, nothing queued |
| ConnTable.Connections.Alloc | src/lsp_conn.c:106-163 | the loop takes the first free slot within its bound, or none if there is none, or runs off the end of the array; a slot taken is no longer free and has a receive queue, there is one free slot less, and no other slot has changed |
| ConnTable.Connections.AllocMany | src/lsp_conn.c:106-163 | any number of allocations without a free succeed exactly as often as there are free slots, with different handles, and touch no other slot |
| ConnTable.Connections.Flush | src/lsp_conn.c:230-240 | frees the receive queue front to back, or refuses if there is none |
| ConnTable.Connections.Close | src/lsp_conn.c:165-204 | the array operation is the pool function |
| ConnTable.Connections.Free | src/lsp_conn.c:206-228 | the recursion through the array terminates for any shape of child queues and is the pool function |
| ConnTable.Connections.DrainChildren | src/lsp_conn.c:215-222 | the loop pops and frees until the queue is empty |
| ConnRace.HandlesAreExclusive | src/lsp_conn.c:111-160 | with the claim under the mutex, in every interleaving of allocating and freeing threads no two live handles name one slot |
| ConnRace.SlotsConserved | src/lsp_conn.c:111-160 | live handles, slots on the way to one and free slots always add up to the pool |
| ConnRace.ReturnsWhatItTook | src/lsp_conn.c:113-160 | in both variants, a call that returns hands out exactly the slot at which its own search stopped, or nothing if it stopped at none |
| ConnRace.SearchFailsOnlyWhenFull | src/lsp_conn.c:113-127 | the search stops only at a slot that is free, and gives up only if none is, unless one was freed meanwhile |
| ConnRace.FullPoolFails | src/lsp_conn.c:113-127 | a search that begins on a full pool never picks a slot, whatever other threads allocate, unless one is freed meanwhile |
| ConnRace.LateClaimSafeIff | src/lsp_conn.c:121-153 | with the claim after the unlock, handles stay exclusive in every run iff at most one thread ever allocates |
| PacketCursors.AlwaysConsistent | src/lsp_buffer.c:28-92 | after any sequence of calls: cursors in order, both counters agree with them, capacity conserved, the tail moved by puts alone |
| PacketCursors.TailAdjustUnreachable | src/lsp_buffer.c:85-89 | whatever the cursors, the branch of pull that adjusts the tail is not taken |
| PacketCursors.PushPullInverse | src/lsp_buffer.c:63-92 | push then pull, and pull then push, restore the cursors |
| PacketCursors.PullsCompose | src/lsp_buffer.c:75-92 | two pulls are one pull, clipped as one |
| PacketCursors.PullReturnsTheRemoved | src/lsp_buffer.c:75-92 | pull returns the old data pointer, and the new one lies behind the bytes taken away |
| PacketCursors.AllocLayout | src/lsp_buffer.c:28-48 | header room, packet and payload room lie one after the other, from the first word boundary behind the control block |
| PacketBuffer.Buffer.constructor | src/lsp_buffer.c:28-48 | an empty packet with the header room of the interface, or 8 bytes |
| PacketBuffer.Buffer.Pull | src/lsp_buffer.c:75-92 | drops bytes from the front, clipped to the length, and returns a pointer to the bytes dropped |
| PacketBuffer.Buffer.Do | src/lsp_buffer.c:50-92 | put and push with the caller's copy append and prepend to a byte sequence, and change nothing if there is no room |
| PacketBuffer.Buffer.DoAll | src/lsp_buffer.c:50-92 | any sequence of them leaves in the buffer what it leaves in a byte sequence with the same room |
| PacketBuffer.RoomConserved | src/include/lsp_buffer.h:108-111 | front room, length and back room keep their sum |

## Left out

- Time: a wait or a lock ends as the events say; deadlines (which the source does not normalise, lsp_queue.c:70-72, lsp_egroup.c:120-122) are not modelled.
- QueueMonitor.NoLostWakeup: a wait that times out is assumed not to use up a signal meant for another waiter; pthread_cond_timedwait is not modelled below that.
- ByteQueue.Queue.Push: one thread alone, so a wait ends in a timeout or an error; being woken by another thread is in QueueMonitor, which works on the same ring functions.
- ByteQueue.Queue.Pop: the same.
- ByteQueue.Queue.Clear: one thread alone; the lock between its check and its reset is in QueueMonitor and QueueWakeups.
- EventGroup: an event word is the set of its one bits, without the 32-bit bound, which no operation depends on; the uninitialised value that a wait returns when it cannot lock is not modelled.
- PortTable.Ports.Listen: asks that the socket is not linked anywhere yet, which the source relies on and does not check; lsp_bind, which never stores a valid port, is not modelled, so the local port is given.
- PortTable.Ports.Replay: a socket is known by its address, so different sockets carry different ids; what else a close does to the socket's fields is not modelled. Ports are valid, memory suffices, and the linking is the repaired one; the other cases of one listen are PortTable.Ports.Listen.
- RouteTable.Table.Add: time stamps are not modelled.
- ConnTable.Connections.Close: records the unlinking in `unlinked`; the pointer work is PortTable.Ports.Unlink, and what the recursion does to the lists is ConnPorts. Destroying the event group is not modelled.
- ConnPorts.FreeTakesOffTheReached: an open connection that is on no list is outside this and the pool theorems; the source would unlink it through pointers that were never set. ConnPorts.UnlinksMeetListsIff says when there is none.
- ConnTable.Connections.Alloc: attributes, timeouts and socket options are not modelled; what the source finds past the end of its array is not either.
- ConnDrain.EveryReachedIsFree: a destroyed queue reads as empty and raises `fault`; what C does with such a queue is undefined, so for the shapes that ConnDrain.SafeIff rules out this and the lemmas after it follow the model's convention.
- ConnAsWritten.AsWrittenReturnsIff: the unset code is one value per connection; a connection that is queued twice and found stuck the first time is found stuck again. A destroyed queue reads as empty here too.
- ConnDrain.SafeIff: a pop that cannot lock (and then leaves its result unset) is not modelled; no other thread touches the pool during a free.
- ConnRace.HandlesAreExclusive: a failed set-up gives the slot back, which is part of the repair; the source has not claimed it at that point.
- PacketBuffer.Buffer.constructor: sizes are not wrapped at 64 bits, and failure of the allocator is not modelled.
- The event group's and queue's creation failures, lsp_queue_destroy, the interface list (the same scan as routing), the core task, interfaces, socket wrappers, memory accounting, logging and the packet bit fields are not modelled.
