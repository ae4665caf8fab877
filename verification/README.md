# Verified model of the cc support library

The C library keeps its data structures in intrusive lists with a shared pool, an ordered hash map indexed by a bucket
array, a multimap on top of both, two thread pools, a JSON writer and token-tree builder, a MurmurHash3 and small matrix
types. This project models the parts with the most state and arithmetic in Dafny and proves what they promise.

Pointer structures, buffers and loops are classes, arrays and loops; each method is proved against a specification on
plain values, and the properties are proved about the specification for all inputs, all runs or all reachable states.
Allocation succeeds or fails as the caller of the model chooses, everywhere. Run `dafny verify dfyconfig.toml`.

| files | what they model |
|---|---|
| `Lists.dfy` | `cc_list.c`: doubly linked list in the heap, iterators as objects that keep their identity |
| `ListPoolState.dfy`, `ListPool.dfy`, `ListPoolRuns.dfy` | the iterator pool of `cc_list.c`, the spares of each list, and any number of lists on one pool |
| `KeyOrder.dfy`, `MapIndex.dfy`, `HashMap.dfy`, `MapRuns.dfy`, `MapLaws.dfy` | `cc_map.c`: key order, the index as a function of the sorted list, the map in memory, whole runs, what decides the order |
| `MultimapOrder.dfy`, `Multimap.dfy` | `cc_multimap.c`: the flattened order and stable sorting, the structure in memory with its cursor |
| `Queues.dfy`, `Threads.dfy` | sequences of identities, and worker threads, for both thread pools |
| `WorkqOrder.dfy`, `WorkqState.dfy`, `WorkqRegions.dfy`, `Workq.dfy`, `WorkqProtocol.dfy` | `cc_workq.c`: priority scans, shared state, mutex-held regions, the object, the protocol of all threads |
| `WorkqDrains.dfy`, `WorkqPurges.dfy`, `WorkqRenewal.dfy` | runs of that protocol: calls that block, tasks that are not run again, and tasks that are |
| `WorkqOutcomes.dfy`, `WorkqSequence.dfy` | what callers and callbacks are told, and in which order |
| `WorkqService.dfy`, `WorkqRanking.dfy`, `WorkqRepaired.dfy` | the order of service, what upsets it, and the queue with the scans repaired |
| `JobqProtocol.dfy`, `JobqDrains.dfy`, `JobqPauses.dfy`, `Jobq.dfy` | `cc_jobq.c`: the protocol, draining, pausing, the object over two linked lists |
| `Json.dfy`, `JsonStreamState.dfy`, `JsonStream.dfy`, `JsonStreamRuns.dfy`, `JsonLaws.dfy` | `jsmn/cc_jsmnStream.c`: trees, texts and an RFC 8259 reader; the automaton; the stream in memory; whole runs; the limits in numbers |
| `JsonTokens.dfy`, `JsonTokenLaws.dfy`, `JsonWrapper.dfy` | `jsmn/cc_jsmnWrapper.c`: what flat tokens spell, small arrays of them; the recursive builder with its allocations |
| `Murmur.dfy`, `MurmurValues.dfy` | `cc_mumurhash3.c`: the hash and its inverses; the length and known hashes |
| `LinearSystems.dfy`, `GaussJordan.dfy` | `cc_mat4f_inverse_copy` of `math/cc_mat4f.c` for any size; the loops of `math/cc_mat3f.c` and `math/cc_mat3d.c` are the same with 3 for 4 |

## What the code does not do

Some properties one would expect are false of the code as it stands. The model keeps the code as it is, gives an input for
each and proves exactly when the property holds.

- The re-prioritising loops of `cc_workq_run` (`cc_workq.c:570-626`) say "move up" and "move down" but compare with the
  priority the node had so far, not with the new one. On an ordered queue moving up moves nothing and moving down stays
  among the former equals. Four calls on a new queue put it out of order (`WorkqRanking.LoweredHeadStays`). A call of run
  keeps the order of service if and only if no other pending task stands between the old and the new rank of the task
  (`WorkqRanking.RunServed`, and on priorities alone `WorkqOrder.ResubmitOrder`). If both scans compared with the new
  priority, every run would serve the highest priority first, and among equals whoever arrived there first, a changed
  priority being a new arrival (`WorkqRepaired.EveryRunServes`). By the age of the tasks alone equals would not always be
  served even then: `WorkqRepaired.RunNewById` says when, `WorkqRepaired.LoweredGoesBehind` gives an input.
- The JSON writer copies strings and keys without escaping, cuts every formatted text at 255 characters (a `%lf` of a large
  double can be longer) and separates elements by a 32-bit counter that comes round to zero after 2^32 elements, where a
  comma is left out. `Json.LostTrees` gives a tree for each, and `Json.RoundTrip` says exactly which trees survive.
- `cc_mat4f_inverse_copy` divides by the pivot without looking at it. The model stops at a zero pivot, and shows that this
  happens exactly for singular matrices (`GaussJordan.InverseCopy`); `GaussJordan.DoubledSingular` gives one.
- `cc_list_appendList` and `cc_list_insertList` do not look whether the two lists are one. A list spliced onto itself is
  empty afterwards and its iterators are in no list (`Lists.List.AppendList`, `Lists.List.InsertList`); every other splice
  keeps all of them. A run with a pool accounts for every iterator, and frees every block with the last list, if and only
  if it does not do that to a list that holds something (`ListPoolRuns.CarefulRunsAccount`,
  `ListPoolRuns.LastListFreesAll`); afterwards no block is ever freed (`ListPoolRuns.NothingFreedAfter`), as in
  `ListPoolRuns.CarelessRun`.
- `cc_workq_finish`, a blocking `cc_workq_wait`, `cc_jobq_finish` and `cc_jobq_delete` do not return when the task or job
  they wait for is pending and the queue was made with no threads (`WorkqDrains.NoThreads`, `JobqDrains.NoThreads`); in
  every other case they and all other calls that block do (`WorkqDrains.DrainGetsBack`, `JobqDrains.DrainGetsBack`).

## Model

| member | source | states |
|---|---|---|
| Murmur.MurmurHash3 | cc_mumurhash3.c:62-116 | The block loop, the fall-through tail and the finaliser, run on machine words, compute the recursive hash for every key length and seed |
| Murmur.TailSwitch | cc_mumurhash3.c:96-106 | The fall-through switch gathers the last one to three bytes, lowest byte first, into one word |
| Murmur.FmixInverse | cc_mumurhash3.c:51-60 | The finaliser is a bijection on 32-bit words: an explicit function undoes it on either side |
| Murmur.AbsorbInverse | cc_mumurhash3.c:82-90 | Taking in one block is, for each block word, a bijection of the running state |
| Murmur.BodyInverse | cc_mumurhash3.c:80-91 | The whole block loop can be run backwards: from its result and the key the seed comes back, and every result has a seed |
| Murmur.SeedBijection | cc_mumurhash3.c:62-116 | For any fixed key, seed to hash is a bijection on 32-bit words, with its inverse given |
| Murmur.OneBlockNoCollision | cc_mumurhash3.c:62-116 | Two keys of equal length, of any length, that differ in exactly one 4-byte block never have the same hash |
| Murmur.TailNoCollision | cc_mumurhash3.c:62-116 | Two keys of equal length that differ only in the tail bytes never have the same hash |
| MurmurValues.ZeroByteCounts | cc_mumurhash3.c:94-112 | The length counts: a zero byte added to a tail of 0, 1 or 2 bytes changes no word that is mixed in, and yet always changes the hash, for every key and seed |
| MurmurValues.LengthWordExact | cc_mumurhash3.c:111-111 | Keys whose lengths differ modulo 2^32 have different length words |
| MurmurValues.EmptyKey | cc_mumurhash3.c:62-116 | The hash of the empty key under three seeds, as numbers |
| MurmurValues.OneByte | cc_mumurhash3.c:93-116 | The hash of "a" under seed 0x9747b28c is 0x7fa09ea6, so the tail of one byte and its constants are fixed |
| MurmurValues.TwoBytes | cc_mumurhash3.c:93-116 | The same for a tail of two bytes, "ab", 0x74875592 |
| MurmurValues.ThreeBytes | cc_mumurhash3.c:93-116 | The same for a tail of three bytes, "abc", 0xc84a62dd |
| MurmurValues.OneBlock | cc_mumurhash3.c:62-116 | The same for one block, "abcd", 0xf0478627, which fixes constants, rotations and byte order of the block loop |
| MurmurValues.ThreeBlocksAndTail | cc_mumurhash3.c:62-116 | The same for three blocks and a tail, "Hello, world!", 0x24884cba |
| KeyOrder.NodeCompare | cc_map.c:142-236 | Comparing hash, then length, then 8-byte, 4-byte and 1-byte words gives the sign of one lexicographic order |
| KeyOrder.CompareBytes | cc_map.c:170-235 | The three passes over the key bytes together compare the sequence of words in order |
| KeyOrder.WordsInjective | cc_map.c:170-235 | The words the passes read cover every byte once: equal words mean equal keys |
| KeyOrder.CompareZero | cc_map.c:142-236 | The comparison returns 0 exactly for the same hash and identical keys, of every length |
| KeyOrder.CompareFlip | cc_map.c:142-236 | Swapping the operands negates the result |
| KeyOrder.CompareTransitive | cc_map.c:142-236 | The comparison is transitive, hence with the two above a total order |
| MapLaws.HashThenLength | cc_map.c:142-169 | A smaller hash comes first, and under one hash a shorter key |
| MapLaws.EightBytes | cc_map.c:176-192 | In a key of eight bytes the last byte that differs decides, as in a little-endian word |
| MapLaws.LastBytes | cc_map.c:192-235 | So it is in a key of four bytes, while in a shorter one the first byte that differs decides |
| MapLaws.WordsDecide | cc_map.c:170-235 | Whatever the length, the first word that differs decides |
| Lists.List.IterAdd | cc_list.c:202-233 | Linking an iterator between two neighbours inserts that very object at that position of the sequence |
| Lists.List.IterRemove | cc_list.c:235-264 | Unlinking removes exactly that object; head, tail, size and all pointers agree with the rest |
| Lists.List.IterMove | cc_list.c:266-320 | Moving inside a list takes the object out and puts it back at the given place; the "else if" is proved sound from size being at least 2 |
| Lists.List.IterNew | cc_list.c:322-374 | A new iterator with the data stands at the given position, or nothing changed when allocation failed (calloc branch) |
| Lists.List.Insert | cc_list.c:668-686 | Inserts before the iterator, or at the head for NULL; a failed allocation changes nothing |
| Lists.List.Append | cc_list.c:688-706 | Inserts after the iterator, or at the tail for NULL; a failed allocation changes nothing |
| Lists.List.Remove | cc_list.c:721-728 | Removes the iterator and returns its data and the iterator that followed it |
| Lists.List.Move | cc_list.c:730-749 | Moves an iterator right before another one, or to the head, keeping every object |
| Lists.List.Moven | cc_list.c:751-770 | Moves an iterator right after another one, or to the tail, keeping every object |
| Lists.List.Swap | cc_list.c:772-796 | Hands the same object from one list to another in front of a given iterator; inside one list it is a move |
| Lists.List.Swapn | cc_list.c:798-822 | Hands the same object over behind a given iterator; inside one list it is a move |
| Lists.List.AppendList | cc_list.c:824-851 | Splices all objects of a list, in order, onto the tail of another and leaves the first empty; spliced onto itself a list loses all it holds |
| Lists.List.InsertList | cc_list.c:853-880 | Splices all objects of a list, in order, in front of another and leaves the first empty; in front of itself a list loses all it holds |
| Lists.List.InsertSorted | cc_list.c:645-666 | Puts data before the first element it precedes, or last |
| Lists.List.Discard | cc_list.c:484-495 | Removes every iterator from the head on until the list is empty |
| Lists.MovedBeforeMeaning | cc_list.c:730-749 | After a move the same objects are in the list, the others in their old order, and the moved one stands right before its target |
| Lists.MovedAfterMeaning | cc_list.c:751-770 | The same for a move behind a target |
| Lists.NeighboursBefore | cc_list.c:742-748 | The early return of a move is taken exactly when the object already stands where it is to go |
| ListPool.Pool.Get | cc_list.c:95-149 | Hands out a chain of exactly 32 free iterators, after adding a block of 1024 when fewer than 32 are free; without memory nothing changes |
| ListPool.Pool.Put | cc_list.c:151-196 | Takes a chain back in front of the free chain and counts it; when the last held iterator comes back all blocks and the free chain go |
| ListPool.PooledList.IterNew | cc_list.c:322-374 | Uses the first spare iterator, or the first of a new set and keeps the rest, reversed, as spares (pool branch); list, spares and free chain stay disjoint |
| ListPool.PooledList.IterDelete | cc_list.c:376-409 | The iterator leaves the list, loses its data and heads the spares |
| ListPool.PooledList.Delete | cc_list.c:455-482 | What the list still held becomes spare and all its spares go back to the pool |
| ListPool.Swap | cc_list.c:772-796 | The same object goes from one pooled list to another, in front of a given iterator, or moves inside one; spares stay where they are and both lists stay in order and disjoint |
| ListPool.Swapn | cc_list.c:798-822 | The same for a hand-over, or a move, behind a given iterator |
| ListPool.AppendList | cc_list.c:824-851 | All in-list iterators, in order, change lists onto the tail; each list keeps its own spares; onto itself a list loses them |
| ListPool.InsertList | cc_list.c:853-880 | All in-list iterators, in order, change lists in front of the head; each list keeps its own spares; in front of itself a list loses them |
| ListPoolRuns.NextKeeps | cc_list.c:95-196 | Every operation on any number of lists, a list spliced onto itself included, leaves every iterator free, held by one list or dropped, once, and both counters exact |
| ListPoolRuns.SwapKeeps | cc_list.c:772-822 | Handing an iterator from one list to another, or moving it inside one, conserves the total held |
| ListPoolRuns.SpliceKeeps | cc_list.c:824-880 | Splicing one list onto another moves its in-list iterators and conserves the total held; onto itself a list drops them; every list keeps its own spares |
| ListPoolRuns.DeleteKeeps | cc_list.c:455-482 | Deleting a list gives back all it held; if blocks go, no list that is left holds anything |
| ListPoolRuns.EveryRun | cc_list.c:95-196 | After any run: no iterator in two places, refcount is what the lists hold plus what was dropped, count is the free chain, and count plus refcount is 1024 times the blocks |
| ListPoolRuns.CarefulRunsAccount | cc_list.c:824-880 | The reference count is what the lists hold, and nothing was dropped, if and only if the run spliced no list that holds something onto itself |
| ListPoolRuns.LastListFreesAll | cc_list.c:151-196 | Once every list has been deleted all blocks have been freed, if and only if the run did not do that |
| ListPoolRuns.CarelessRun | cc_list.c:824-851 | A list is made, takes one element, is spliced onto itself and is deleted: its block is not freed |
| ListPoolRuns.NothingFreedAfter | cc_list.c:178-193 | After such a splice no block is ever freed, whatever is done next |
| ListPoolRuns.FreedBlocksAreUnused | cc_list.c:178-193 | When a block is freed, no live list has an iterator, in use or spare, in any block |
| ListPoolRuns.InsertExact | cc_list.c:322-374 | Which iterator an insertion uses, where it goes, what stays spare, and that 32 leave the pool, or 32 of a new block of 1024, exactly when none was spare; no other list changes |
| ListPoolRuns.SuppliedSet | cc_list.c:95-149 | Which 32: the first free ones, or the last of a new block; the first is used, and the others are kept with the last one on top |
| ListPoolRuns.RemoveExact | cc_list.c:376-409 | A removal takes the iterator out, makes it the first spare of its list and leaves the pool alone |
| ListPoolRuns.RemoveInsert | cc_list.c:322-409 | An insertion where an iterator was just removed puts back that very iterator and restores lists, spares and pool, whatever memory there is |
| ListPoolRuns.TransferExact | cc_list.c:730-880 | Moves, hand-overs and splices leave the pool and all spares alone, and one iterator, or all of one list in order, goes to the stated place |
| ListPoolRuns.DeleteExact | cc_list.c:455-482 | A deleted list gives back its nodes, last one first, and behind them its spares, in front of the free chain; with nothing left outside, all blocks go |
| HashMap.Map.Create | cc_map.c:242-325 | A new map has 16 buckets, no node and stands for the empty finite map; it is made exactly when all three allocations succeed, and otherwise nothing stays allocated |
| HashMap.Map.Findp | cc_map.c:595-651 | Returns the node of a key exactly when the finite map has it, with that value; a key that is not empty is looked up as it is, from whatever address, an empty one under the eight bytes of its address; a key over 256 bytes is never found |
| HashMap.Map.Probe | cc_map.c:622-650 | Walking from the bucket of the hash finds the rank where a scan of the whole sorted list would, or proves it missing |
| HashMap.Map.Grow | cc_map.c:327-412 | Doubles the index exactly when there are more nodes than buckets and the reallocation succeeds; otherwise the smaller index stays valid; nodes are untouched |
| HashMap.Map.Split | cc_map.c:365-411 | The descending in-place loop turns bucket k into 2k and 2k + 1 without overwriting a bucket it has not read |
| HashMap.Map.SplitBucket | cc_map.c:374-410 | Each half of a bucket gets the first node of its hash range, or NULL |
| HashMap.Map.AddAt | cc_map.c:414-476 | Links a node in at its place, repairs the one bucket concerned and then doubles the index exactly when there are more nodes than buckets; a failed allocation changes nothing |
| HashMap.Map.Addp | cc_map.c:679-760 | Succeeds exactly for a key of at most 256 bytes that is not there while allocations succeed, and then adds just that entry, under the key itself, or under its address if it is empty, doubles the index exactly when there are more nodes than buckets and memory for it, and adds 16 and the length to nodes_size; a failure changes nothing |
| HashMap.Map.FindPlace | cc_map.c:708-759 | Finds where a new key belongs in the sorted list, through the next bucket in use when its own is empty |
| HashMap.Map.Remove | cc_map.c:792-832 | Removes just that entry, passes its bucket on when the node headed it, and returns the value and the next iterator |
| HashMap.Map.Discard | cc_map.c:521-536 | Empties map and buckets and brings nodes_size back to 0 |
| MapIndex.SizedDouble | cc_map.c:338-362 | Capacity and span stay powers of two with product 2^32, so doubling one halves the other exactly, up to 2^30 buckets |
| MapIndex.SlotSplits | cc_map.c:386-402 | A hash in bucket k of the old index is in bucket 2k or 2k + 1 of the doubled one |
| MapIndex.FirstFromSplits | cc_map.c:372-411 | Bucket k of the old index starts at the same node as bucket 2k of the new one |
| MapIndex.EntryInsert | cc_map.c:414-476 | Inserting a node changes the entry of its own bucket, if that was empty or headed by the successor, and no other |
| MapIndex.EntryRemove | cc_map.c:792-832 | Removing a node changes only the bucket it heads, which passes to the next node of that bucket |
| MapIndex.Found | cc_map.c:595-651 | In a sorted list a key is in the finite map exactly when the node at the place of its rank carries it |
| MapIndex.ModelInsert | cc_map.c:414-476 | Inserting at the place of a new key keeps the list strictly ascending and adds just that entry |
| MapIndex.ModelRemove | cc_map.c:792-832 | Removing a node keeps the list strictly ascending and takes out just that entry |
| MapRuns.Run | cc_map.c:242-832 | Any run of find, add, remove and discard on a new map, of any length and under any allocation failures, that never adds to a map of 2^30 entries is answered as a plain finite map would answer it; while the index may grow the nodes never outnumber its buckets |
| MapRuns.KeysCountNotAddresses | cc_map.c:595-832 | What that finite map is, in terms of keys: an add puts in the key itself, find and remove of it do not depend on its address, only an empty key stands for its address, and what is refused changes nothing |
| MapRuns.AddFindDelete | cc_map.c:595-832 | A key added from one address is found from a second, removed from a third and then gone |
| MapLaws.KnownHash | cc_map.c:622-623 | Two known hashes of keys: the map hashes the bytes of the key, in order, with its seed |
| MapIndex.ModelSize | cc_map.c:242-832 | The list has exactly one node for each entry of the finite map |
| Multimap.Multimap.Head | cc_multimap.c:109-126 | Puts the cursor on the first item of the first list, if there is one |
| Multimap.Multimap.Next | cc_multimap.c:128-148 | Moves the cursor to the next item of the list or the first of the next list, and reports the end exactly there |
| Multimap.Multimap.Findp | cc_multimap.c:203-225 | Returns the list of a key exactly when there is one, with the cursor on its first item |
| Multimap.Multimap.Addp | cc_multimap.c:268-338 | Adds the value to the list of its key: as the last without a comparator, and with one behind every item it does not precede, up to the first it precedes; or in a new list; says exactly when it fails, and a failure changes nothing |
| Multimap.Multimap.Remove | cc_multimap.c:426-474 | Removes the item under the cursor, and its list when that becomes empty, and leaves the cursor on the item that followed |
| Multimap.Multimap.Discard | cc_multimap.c:80-93 | Removes and empties every list; the map is empty afterwards |
| Multimap.Multimap.Walk | cc_multimap.c:109-148 | Going on from the first item to the next visits every item once, in the order of iteration, and changes nothing |
| Multimap.Multimap.Drain | cc_multimap.c:426-474 | Removing at the cursor from the first item on hands out every item once, in the order of iteration, and leaves nothing |
| Multimap.Multimap.KeysAgree | cc_multimap.c:203-225 | A key is in the hash map exactly when it has a group |
| Multimap.Multimap.KeysDiffer | cc_multimap.c:268-338 | No key ever has two lists |
| Multimap.Multimap.KeysAscend | cc_multimap.c:109-148 | The lists are visited in the order of hash, length and words of their keys |
| MultimapOrder.FlatWithout | cc_multimap.c:426-474 | Taking an item out of its list, or its whole list if it was alone, removes exactly that element from the flattened iteration order |
| MultimapOrder.BehindIs | cc_multimap.c:440-471 | The cursor left behind stands at the same offset of the flattened order, that is on the element that followed, or at the end |
| MultimapOrder.OffsetIs | cc_multimap.c:128-148 | An item of a group is the element at its offset in the flattened order, and a group ends where the next begins |
| MultimapOrder.AddedMeaning | cc_multimap.c:268-338 | An addition inserts exactly one element into the flattened order and keeps every list sorted under a lawful comparator |
| MultimapOrder.UnorderedGoesLast | cc_multimap.c:299-308 | Without a comparator a value added to a key that is there is visited right behind the last value of that key |
| MultimapOrder.OrderedGoesBehindPeers | cc_multimap.c:288-298 | With one it is visited behind every value of the key that it does not precede, and in front of every one it precedes |
| MultimapOrder.RemovedMeaning | cc_multimap.c:426-474 | A removal keeps every list sorted |
| MultimapOrder.InsertSortedKeeps | cc_list.c:645-666 | Sorted insertion keeps a sorted list sorted, for every comparator that is a total preorder |
| MultimapOrder.InsertSortedStable | cc_list.c:645-666 | Among the elements equal to any given one, a newly inserted equal becomes the last: insertion is stable |
| Workq.Workq.RemoveLocked | cc_workq.c:78-100 | Takes a node out of its queue and the index, and either calls finish_fn or leaves it to the caller; the index lookup cannot miss |
| Workq.Workq.TakeTask | cc_workq.c:136-145 | The worker moves the head of the pending queue to the active tail and marks it active |
| Workq.Workq.CompleteTask | cc_workq.c:151-158 | After run_fn the node goes to the tail of the complete queue, completed or failed as run_fn said |
| Workq.Workq.FlushLocked | cc_workq.c:161-172 | The loop finishes every complete node, as the specification does in one step |
| Workq.Workq.PurgeLocked | cc_workq.c:378-440 | The three loops over pending, active and complete do what the specification of a purge says |
| Workq.Workq.Run | cc_workq.c:481-650 | Accepting a new task, renewing a tracked one, moving it, or handing out the status of a finished one, with every failed allocation undone |
| WorkqRenewal.RunTells | cc_workq.c:481-650 | What the caller of run learns and finds: an error, and nothing changed, exactly for a new task without memory; Pending for a new one; otherwise the status the task had, with the task kept while pending or active and handed out when complete or failed; no other task is touched |
| WorkqRenewal.RunRenews | cc_workq.c:481-650 | Whatever run leaves tracked under the task, new, pending or active, carries the current purge id, counts as run since the last purge and outlives the next one unmarked |
| WorkqRenewal.PurgeKeepsRecent | cc_workq.c:378-440 | A purge leaves every task that was run since the last one exactly as it is |
| WorkqRenewal.StaysRecent | cc_workq.c:102-749 | Over every run without a purge, reset or delete, what was run since the last one stays so |
| WorkqRenewal.RenewedOutlivesPurge | cc_workq.c:378-650 | Over every run: a task run, or run again while pending or active, is neither finished nor changed by the next purge |
| Workq.Workq.ScanTail | cc_workq.c:508-520 | The scan from the tail stops behind the last task of the same or a higher priority |
| Workq.Workq.Requeue | cc_workq.c:566-626 | A pending task is moved as the two loops do, which compare with the priority it had so far, and then gets the new priority |
| Workq.Workq.WaitRegion | cc_workq.c:652-696 | Sleeps exactly for a pending or active task when blocking, and otherwise leaves the status of that node to be read later; a finished one leaves the queue and its status is returned; unknown tasks are an error |
| Workq.Workq.CancelRegion | cc_workq.c:698-749 | Sleeps exactly for an active task when blocking, and otherwise leaves the status of that node to be read later; any other tracked task leaves the queue and its status is returned |
| Workq.Workq.FinishRegion | cc_workq.c:451-479 | Flushes what is complete and sleeps exactly while something is pending or active |
| Workq.Workq.ResetRegion | cc_workq.c:346-357 | Saves the purge id and purges with the id that matches nothing |
| WorkqState.DropGood | cc_workq.c:78-100 | Taking a finished or pending node out keeps queues, statuses, index, colours and history in order |
| WorkqRegions.RunGood | cc_workq.c:481-650 | So does a call of run, whatever its task, priority and allocations |
| WorkqRegions.PurgeExact | cc_workq.c:378-440 | A purge calls finish_fn, in queue order, exactly for the pending and complete nodes not run since the last purge, keeps the others, marks such active nodes -1 and flips the colour |
| WorkqRegions.PurgeGood | cc_workq.c:378-440 | A purge keeps the invariant: a node carries the current colour exactly when it was run since the last purge or reset |
| WorkqRegions.PurgeForced | cc_workq.c:346-376 | A forced purge finishes everything pending and complete and leaves the active queue alone |
| WorkqPurges.MarkedGoesNext | cc_workq.c:378-440 | Over every run: a node that is there when purge is called, and whose task is not run again, is finished by the first later purge that finds it pending or complete |
| WorkqPurges.StaysOld | cc_workq.c:378-440 | As long as its task is not run again, over all steps of workers and client, a node keeps counting as not run since the last purge |
| WorkqPurges.OldGoes | cc_workq.c:378-440 | A purge finishes every pending or complete node not run since the last one |
| WorkqRegions.FlushExact | cc_workq.c:161-172 | A flush finishes exactly the complete nodes, in order |
| WorkqOrder.InsertKeepsOrder | cc_workq.c:508-541 | A new task keeps the pending queue in descending priority and goes behind its equals |
| WorkqOrder.RaiseMovesNothing | cc_workq.c:574-597 | On an ordered queue "move up" never moves anything, because the loop compares with the old priority |
| WorkqOrder.LowerStaysInClass | cc_workq.c:599-624 | On an ordered queue "move down" only moves to the end of the tasks that shared the old priority |
| WorkqOrder.ResubmitOrder | cc_workq.c:570-626 | A changed priority keeps the queue ordered if and only if nothing in front is below a raised priority, and nothing behind that was below the old priority is above a lowered one |
| WorkqOrder.ResubmitNewKeepsOrder | cc_workq.c:570-626 | On priorities alone: comparing with the new priority instead would keep every queue in descending order, behind those of that priority |
| WorkqService.OthersServe | cc_workq.c:102-749 | No step of any thread but a call of run upsets an order by priority and stamp, whatever the stamps |
| WorkqService.InsertServed | cc_workq.c:508-541 | A new task with the latest stamp takes its place in such an order |
| WorkqRepaired.RunNewServed | cc_workq.c:481-650 | With both scans comparing with the new priority, every call of run keeps priority order with first come first served, where a changed priority counts as a new arrival |
| WorkqRepaired.NextNewKeeps | cc_workq.c:102-749 | So does every step of every thread of the queue repaired in that way, together with its invariant |
| WorkqRepaired.EveryRunServes | cc_workq.c:102-749 | Over every run of the repaired queue, whatever is submitted again and how, a worker takes the task of highest priority that arrived first |
| WorkqRepaired.RunNewById | cc_workq.c:481-650 | Were equals served by the age of their tasks alone, a repaired call would keep that order if and only if the pending task does not get the priority of a younger one |
| WorkqRepaired.LoweredGoesBehind | cc_workq.c:599-626 | Two calls on a new queue, tasks with priorities 5 and 4, after which lowering the first to 4 is such a call |
| WorkqProtocol.NextKeeps | cc_workq.c:102-160 | Every step of every thread keeps the invariant over queues, index, colours, history, workers and the client |
| WorkqProtocol.EveryRun | cc_workq.c:481-749 | Over every interleaving each tracked task is in exactly one queue, its status names that queue, and the index maps exactly the tracked tasks to their nodes |
| WorkqProtocol.LeftOnce | cc_workq.c:78-100 | Every accepted node leaves at most once, by finish_fn or by a returned status and never both; run_fn ran once for a completed or failed node and never for one that left pending |
| WorkqProtocol.LifeCounts | cc_workq.c:78-100 | What one node can have in the history of callbacks: at most one departure, and one run_fn call unless it left pending |
| WorkqOutcomes.StatusesAreTrue | cc_workq.c:146-158 | In every run: a status returned, or given to finish_fn, is Pending for a task run_fn was never called for and otherwise Complete or Failure as run_fn said; run_fn returns at most once, after it was called |
| WorkqSequence.EveryRunTimely | cc_workq.c:136-158 | In every run the active queue is in the order of the calls of run_fn, and the complete queue, which is the order of finish_fn, in the order in which they returned |
| WorkqSequence.FromTheStart | cc_workq.c:136-158 | So from a new queue on, with any number of workers |
| WorkqOutcomes.PollingChangesNothing | cc_workq.c:652-749 | wait and cancel of a task that is not tracked, and without waiting of one that is not done, change nothing |
| WorkqOutcomes.CancelPending | cc_workq.c:698-749 | Cancelling a pending task hands it back unrun at once, whether waiting or not, and changes nothing else |
| WorkqOutcomes.FlushCall | cc_workq.c:442-449 | flush finishes every complete task, once, and leaves every other as it is |
| WorkqOutcomes.ResetCall | cc_workq.c:346-376 | reset finishes whatever is pending or complete at once; what is active stays but counts as not run since; without waiting the purge id stays |
| WorkqProtocol.NodeOutlivesSleep | cc_workq.c:652-749 | Over any number of steps of workers and causeless wake-ups, a caller of wait or cancel that sleeps, or reads the status after giving up the mutex, finds its node there, still indexed under its task |
| WorkqProtocol.ClientNotForgotten | cc_workq.c:665-745 | In every run: while a caller of wait, cancel, finish or reset sleeps unsignalled, some worker is running or about to look, if and only if there are workers at all |
| WorkqProtocol.WorkersNotForgotten | cc_workq.c:119-127 | In every run no worker sleeps while a task is pending or the queue is stopping |
| WorkqProtocol.WorkerStepsEnd | cc_workq.c:116-158 | Every step a worker takes lowers a measure of pending and active tasks and workers |
| WorkqProtocol.WorkersComeToRest | cc_workq.c:116-158 | Left alone, the workers come to rest within that measure: nothing is active; on a running queue nothing is pending and the client is awake; on a stopping one every worker is gone |
| WorkqDrains.DrainReturns | cc_workq.c:305-376 | The step with which finish, a blocking reset or delete returns leaves no node and no index entry |
| WorkqDrains.DrainGoesOn | cc_workq.c:305-749 | While a call of finish, reset, delete, wait or cancel is in progress some worker or the caller can take a step of its own accord, unless finish or wait waits for a pending task and there are no threads |
| WorkqDrains.DrainLighter | cc_workq.c:305-749 | Every such step lowers a measure, and a wake-up without cause raises it by at most four |
| WorkqDrains.DrainsEnd | cc_workq.c:305-749 | Every run of enabled steps during such a call is at most as long as the measure, plus five for each wake-up without cause |
| WorkqDrains.DrainGetsBack | cc_workq.c:305-749 | Such a call that has gone on as far as it can has returned, if and only if it was not a finish or wait with its task pending and no threads |
| WorkqDrains.WayBack | cc_workq.c:305-749 | From any point of such a call there is a run back to its caller |
| WorkqDrains.DrainFinishesEverything | cc_workq.c:305-479 | finish, blocking reset and delete return after a bounded number of steps; all queues and the index are empty then, finish_fn ran exactly once for every task that was there, none was handed to the caller, and reset put the purge id back |
| WorkqOutcomes.ResetAndDeleteStartNothing | cc_workq.c:305-376 | A blocking reset, and delete, start no task: the pending ones are finished unrun |
| WorkqOutcomes.FinishRunsEverything | cc_workq.c:451-479 | finish gets back only when run_fn has been called exactly once for every task that was there |
| WorkqDrains.WaitGetsStatus | cc_workq.c:652-749 | A blocking wait or cancel of a tracked task returns after a bounded number of steps; the task has been handed out then and finish_fn was not called for it, and after a wait run_fn was called for it once |
| WorkqDrains.NoThreads | cc_workq.c:451-696 | On a queue without threads one run followed by finish, or by a blocking wait, never returns |
| WorkqRanking.RunServed | cc_workq.c:481-650 | On a queue in descending priority, oldest first among equals, a call of run keeps that order always, except for a pending task, and there if and only if no other pending task stands between its old and its new rank |
| WorkqRanking.NextRanked | cc_workq.c:102-749 | So of all steps of all threads only such a call of run upsets the order, and it always does |
| WorkqRanking.RunResubmits | cc_workq.c:566-626 | Seen on the priorities alone, submitting a pending task again does what the two scans do to a list of numbers |
| WorkqRanking.LoweredHeadStays | cc_workq.c:599-626 | Four calls on a new queue: tasks with priorities 5, 4, 3, then the first again with priority 1, which stays at the head |
| WorkqRanking.SteadyRunsServe | cc_workq.c:508-541 | In every run without such calls the pending queue is in descending priority with first-come-first-served among equals |
| WorkqRanking.WorkerTakesTheBest | cc_workq.c:139-142 | In such a run a worker always takes the oldest task of the highest priority |
| Jobq.Jobq.Run | cc_jobq.c:295-320 | Appends the task to the linked list and wakes workers only when running; a failed allocation accepts nothing |
| Jobq.Jobq.TakeTask | cc_jobq.c:61-85 | A worker sleeps exactly when paused, or when nothing is pending while running; it stops when told; otherwise the head iterator is handed to the tail of the active list |
| Jobq.Jobq.CompleteTask | cc_jobq.c:90-100 | Removes the finished task and wakes waiting callers exactly when nothing is pending or active |
| Jobq.Jobq.FinishRegion | cc_jobq.c:271-293 | Resumes a paused queue, waking the workers, and sleeps exactly while tasks remain |
| JobqPauses.PausedStartsNothing | cc_jobq.c:252-259 | From a pause on, whatever is submitted and however threads are scheduled, no job is started until resume, finish or delete is called |
| JobqPauses.PauseHolds | cc_jobq.c:252-259 | That holds from the call of pause itself |
| JobqPauses.ResumeRunsEverything | cc_jobq.c:261-269 | After resume, left alone, the workers come to rest in bounded time with every job accepted so far run exactly once |
| JobqPauses.RunAccepts | cc_jobq.c:295-320 | A submission goes behind all others exactly when its allocation succeeds, paused or not |
| JobqPauses.LastReturnSignals | cc_jobq.c:90-100 | A caller asleep in finish or delete is signalled by the end of the last job and by no other |
| JobqProtocol.NextKeeps | cc_jobq.c:42-102 | Every step of every thread keeps the invariant over queues, history, workers and client |
| JobqProtocol.EveryRun | cc_jobq.c:42-320 | Over every interleaving tasks start in the order of acceptance, each at most once, and every started one that is not active has ended once |
| JobqDrains.DrainRunsEverything | cc_jobq.c:215-293 | finish and delete, on a running or a paused queue, return after a bounded number of steps; every task accepted before has run exactly once then, and the queue is running, or stopped with all its workers gone |
| JobqDrains.DrainGoesOn | cc_jobq.c:215-293 | While such a call is in progress some worker or the caller can take a step of its own accord, unless jobs are pending and there are no threads |
| JobqDrains.DrainLighter | cc_jobq.c:215-293 | Every such step lowers a measure, and a wake-up without cause raises it by at most four |
| JobqDrains.DrainsEnd | cc_jobq.c:215-293 | Every run of enabled steps during such a call is at most as long as the measure, plus five for each wake-up without cause |
| JobqDrains.DrainGetsBack | cc_jobq.c:215-293 | Such a call that has gone on as far as it can has returned, if and only if it does not wait for pending jobs without threads |
| JobqDrains.WayBack | cc_jobq.c:215-293 | From any point of such a call there is a run back to its caller |
| JobqDrains.NoThreads | cc_jobq.c:215-293 | On a queue without threads one run followed by finish, or by delete, never returns |
| JobqProtocol.ClientNotForgotten | cc_jobq.c:286-290 | In every run: while finish sleeps unsignalled, some worker is running or about to look, if and only if there are workers at all |
| JobqProtocol.WorkersNotForgotten | cc_jobq.c:61-68 | In every run no worker sleeps with work pending, or when stopping, unless the queue is paused |
| JobqProtocol.WorkerStepsEnd | cc_jobq.c:61-100 | Every step a worker takes lowers a measure of pending and active tasks and workers |
| JobqProtocol.WorkersComeToRest | cc_jobq.c:61-100 | Left alone, the workers come to rest within that measure: nothing is active; on a running queue nothing is pending and the client is awake; on a stopped one every worker is gone |
| Json.RoundTrip | jsmn/cc_jsmnStream.c:61-214 | A tree is read back from the text the writer gives it, after sections 2 to 7 of RFC 8259, if and only if its texts need no escaping, none is longer than 255 characters, its other leaves are numbers or literal names and no container has more than 2^32 children |
| Json.LostTrees | jsmn/cc_jsmnStream.c:115-214 | Three trees that are not read back: a string that is one quotation mark, a string of 256 characters, an array of 2^32 + 1 elements |
| JsonLaws.TextsSurvive | jsmn/cc_jsmnStream.c:397-464 | A string is read back if and only if it has at most 255 characters and no quotation mark, backslash or control character; another leaf if and only if it has at most 255 characters and is a number or a literal name |
| JsonLaws.ArraysSurvive | jsmn/cc_jsmnStream.c:166-174 | An array of up to 4294967296 surviving items survives |
| JsonLaws.ObjectsSurvive | jsmn/cc_jsmnStream.c:357-395 | So does an object of that many members with surviving values and keys |
| JsonLaws.IntegersSurvive | jsmn/cc_jsmnStream.c:436-444 | So does every integer of up to 255 characters |
| JsonLaws.SpaceAround | jsmn/cc_jsmnStream.c:61-214 | Blanks, tabs and line ends around a surviving text change nothing for the reader |
| JsonLaws.TwoNumbers | jsmn/cc_jsmnStream.c:166-174 | The array of 1 and 2 is written [1,2] and read back |
| Json.ReadsBack | jsmn/cc_jsmnStream.c:115-214 | A plain value is read back from its text wherever that stands |
| Json.ValueSpan | jsmn/cc_jsmnStream.c:115-214 | No text shorter than a value's full text reads as the value, and one of exactly that length only if the value is plain |
| Json.WrittenFull | jsmn/cc_jsmnStream.c:166-174 | The written text is the full one exactly when nothing is cut and no 32-bit counter comes round to zero, and is shorter otherwise |
| Json.IntegersArePlain | jsmn/cc_jsmnStream.c:436-444 | Every integer the writer formats is a number of section 6 of RFC 8259 |
| Json.IntegersDenote | jsmn/cc_jsmnStream.c:436-444 | The text of an integer denotes that integer: a sign exactly when it is negative, and digits whose decimal value is its magnitude |
| JsonStream.Stream.Cat | jsmn/cc_jsmnStream.c:61-113 | Appends a string and its terminating zero, growing the block from 256 by doubling; a failed reallocation leaves the text and sets the error |
| JsonLaws.FirstBlock | jsmn/cc_jsmnStream.c:73-98 | The first block has 256 characters, or is doubled until it holds the text and its end, and no further |
| JsonLaws.NextBlock | jsmn/cc_jsmnStream.c:73-98 | A block that is large enough stays, and any other is doubled until it is |
| JsonStream.Stream.Val | jsmn/cc_jsmnStream.c:115-214 | Opens, separates, nests or refuses a value exactly as the automaton on values does |
| JsonStream.Stream.End | jsmn/cc_jsmnStream.c:319-355 | Closes the innermost container or sets the error |
| JsonStream.Stream.Key | jsmn/cc_jsmnStream.c:357-395 | Writes a key, cut to 255 characters, or sets the error |
| JsonStream.Stream.Buffer | jsmn/cc_jsmnStream.c:273-303 | Hands out the text and its size with the zero exactly when one value is finished and no error occurred; otherwise sets the error |
| JsonStreamRuns.StepMatches | jsmn/cc_jsmnStream.c:115-395 | One call, whatever it is, succeeds only if it has a meaning after the calls before it, and then text and frames are those of the tree so far; it fails only for a call without meaning, too deep nesting or lack of memory |
| JsonStreamRuns.BufferHoldsTheTree | jsmn/cc_jsmnStream.c:273-303 | Whenever text is handed out, the calls made describe exactly one tree of at most 32 nested containers, and the text is the written form of that tree |
| JsonStreamRuns.TreesThatCanBeWritten | jsmn/cc_jsmnStream.c:183-201 | With memory for twice the text and a first block, the calls of a tree produce its text if it has at most 32 nested containers, and no text otherwise |
| JsonStreamRuns.CallsDiffer | jsmn/cc_jsmnStream.c:305-464 | The calls of a tree describe no other tree |
| JsonStreamRuns.ErrorsStick | jsmn/cc_jsmnStream.c:48-59 | After an error no later call brings the buffer back |
| JsonStreamRuns.TooEarly | jsmn/cc_jsmnStream.c:283-296 | Asking for the buffer before the value is finished is itself such an error |
| JsonWrapper.Wrapper.Step | jsmn/cc_jsmnWrapper.c:131-170 | Takes the next token with a copy of its text for a leaf, and nothing at the end of the tokens or without memory |
| JsonWrapper.Wrapper.ValWrap | jsmn/cc_jsmnWrapper.c:381-441 | On any tokens with ranges inside the text: builds the value the tokens from here on spell, takes exactly its tokens and holds exactly its blocks; if it builds nothing, whatever the tokens spell needs more memory than there is, and nothing stays allocated |
| JsonWrapper.Wrapper.ArrayWrap | jsmn/cc_jsmnWrapper.c:283-357 | The same for an array, through the loop over its declared size |
| JsonWrapper.Wrapper.ObjectWrap | jsmn/cc_jsmnWrapper.c:185-259 | The same for an object |
| JsonWrapper.Wrapper.KeyvalWrap | jsmn/cc_jsmnWrapper.c:443-485 | The same for a key, which must be a string token, and its value |
| JsonWrapper.Wrapper.ValDelete | jsmn/cc_jsmnWrapper.c:680-703 | Frees exactly the blocks a value holds |
| JsonTokens.SpellsOne | jsmn/cc_jsmnWrapper.c:185-485 | Tokens spell at most one value from any position |
| JsonTokens.FlattenSpells | jsmn/cc_jsmnWrapper.c:185-485 | The preorder tokens of a value with child counts spell that value wherever they stand |
| JsonTokenLaws.LeafSpells | jsmn/cc_jsmnWrapper.c:381-441 | A leaf token of any kind spells exactly its kind and the text it covers |
| JsonTokenLaws.PairSpells | jsmn/cc_jsmnWrapper.c:283-357 | An array token and the leaves it counts spell them in order |
| JsonTokenLaws.MemberSpells | jsmn/cc_jsmnWrapper.c:443-485 | An object token, a string token and a value spell that member |
| JsonTokenLaws.NothingSpelled | jsmn/cc_jsmnWrapper.c:443-485 | With a child missing, or a key that is no string, nothing is spelled |
| JsonTokenLaws.EmptySpells | jsmn/cc_jsmnWrapper.c:185-357 | A container whose size is zero or negative is empty |
| JsonTokenLaws.BlocksOf | jsmn/cc_jsmnWrapper.c:680-703 | The blocks of a leaf, of containers and of their entries, in numbers |
| JsonWrapper.WrapFlattened | jsmn/cc_jsmnWrapper.c:588-614 | Wrapping flattened tokens gives the value back, taking exactly its tokens, if and only if its blocks can be had |
| GaussJordan.InverseCopy | math/cc_mat4f.c:141-244 | For every size: succeeds if and only if the matrix is nonsingular, and then the result undoes the matrix on either side and V*A = A*V = I |
| GaussJordan.Largest | math/cc_mat4f.c:169-178 | The pivot chosen is a largest entry of its column from the diagonal down |
| GaussJordan.Pivot | math/cc_mat4f.c:169-195 | The interchange keeps the solutions and the triangle; a zero pivot means the whole column below is zero |
| GaussJordan.Eliminate | math/cc_mat4f.c:200-212 | With the columns before the pivot skipped, the row still becomes its difference with a multiple of the pivot row |
| GaussJordan.Below | math/cc_mat4f.c:197-212 | Zeros below the pivot, with the solutions of A x = V y unchanged |
| GaussJordan.Normalize | math/cc_mat4f.c:214-224 | The pivot becomes one, with the solutions unchanged |
| GaussJordan.Above | math/cc_mat4f.c:227-243 | Zeros above each leading one, with the solutions unchanged |
| GaussJordan.ZeroPivotSingular | math/cc_mat4f.c:167-225 | If a pivot is zero the original matrix sends a nonzero vector to zero |
| GaussJordan.DoubledSingular | math/cc_mat4f.c:197-225 | A matrix with a zero pivot: its second row is twice its first, and it sends a nonzero vector to zero |
| GaussJordan.IdentityInverts | math/cc_mat4f.c:141-244 | Once the left side is the identity, the right side is the inverse of the original |
| LinearSystems.InverseProducts | math/cc_mat4f.c:141-157 | A matrix that undoes another on either side has both products equal to the identity |
| LinearSystems.SolvesMinus | math/cc_mat4f.c:200-212 | Subtracting a multiple of another row on both sides changes no solution |

## Left out

- List iterators and hash map nodes of the map and multimap use the calloc branch of the list; the pool branch is proved separately in `ListPool.dfy`, where lists that exchange iterators share one pool, as the source demands.
- ListPool.PooledList.IterNew: the heap proof concerns one list and the pool, or two lists where iterators change hands; that every further list keeps its iterators is proved on values, in `ListPoolRuns.dfy`.
- Lists.List.IterRemove: does not model the free of an iterator, nor the clearing of its data before the free.
- HashMap.Map.Grow: needs at most 2^30 nodes, since the source doubles an `int` capacity without a check.
- KeyOrder.NodeCompare: the wide loads are little-endian.
- Keys are byte sequences; the layout of key bytes behind a node, alignment copies and pointer-as-key casts are not modelled, except that an empty key stands for the eight bytes of its address.
- Multimap.Multimap.Addp: needs fewer than 2^30 keys, for the same reason; `add` and `addf` differ from it only in forming the key.
- Multimap.Multimap.Remove: takes the cursor as an object of two pointers; the caller's pointer to it becoming NULL is the result `more`.
- nextItem and nextList of the multimap, which are single steps of `next`.
- Workq.Workq.Run: the node store is a map keyed by the identity of the iterator, and the three queues are sequences of such identities, on which list operations act as `Lists.dfy` proves them to and as `Jobq.dfy` uses them.
- WorkqProtocol.EveryRun: one client thread and any number of workers, as `cc_workq.h:47-48` asks, callbacks that do not call back into the queue, and wake-ups by signal, broadcast or without cause; thread priorities and thread ids are left out.
- The status and pending queries of the two queues, which only read.
- Constructors of the two queues with their thread creation and clean-up ladders; a protocol starts from empty queues and ready workers.
- WorkqProtocol.WorkersComeToRest: assumes that run_fn returns, which is the step a busy worker takes.
- WorkqDrains.DrainGetsBack: going on as far as it can means that run_fn returns and that every thread gets its turn.
- JobqDrains.DrainGetsBack: means the same.
- Json.RoundTrip: the reader takes each `\u` escape as one character and does not combine surrogate pairs; the writer never produces one.
- JsonStream.Stream.Text: printf-style formatting is not modelled; the formatted text is an input, and floats are whatever text they were formatted to.
- JsonStream.Stream.Cat: sizes are unbounded integers, so an overflow of `size_t` does not occur.
- JsonWrapper.Wrapper.ValWrap: the jsmn lexer is not part of this model; any tokens with ranges inside the text are an input. The built tree is a value, with the blocks it occupies counted, and a list entry counts as one block.
- GaussJordan.InverseCopy: arithmetic is over the reals, so rounding is not modelled; matrices are two-dimensional arrays where the source uses column-major storage through a macro.
- File import and export, printing, logging, timestamps and the debug tables of `cc_memory.c`.
- The pcg32 generator, vector, plane, quaternion, camera and stack code, and `math/cc_pow2n.c`.
