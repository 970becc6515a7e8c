# A model of the algorithms of libsc

libsc is a support library for parallel scientific software.  This project models
its algorithms in Dafny and proves what they promise:

* **Reversal of a communication pattern** (`sc_notify`).  Each of P ranks has a sorted list
  of receivers, with or without a payload of `npay` whole integers for each, and must learn
  its senders.  `Pattern.Senders(pat, me, 0)` is the specification: the ranks whose list
  names `me`, ascending.  The binary recursion, the n-ary recursion, the allgather version,
  the all-to-all version (PEX) and the non-blocking consensus (NBX) are all proved to give
  exactly this.  `Rounds` is the machine on which the recursions and the allgather run:
  ranks post nonblocking sends and receive from any source, and there is one first-in,
  first-out queue for each source, destination and tag (section 3.5 of MPI 3.1).
  A run is any interleaving.
* **Recursive allgather** with halves of unequal size, on the same machine.
* **Containers**: the chained hash table, the hash array with its sentinel index, the
  in-place permutation and the multi-way split.
* **The count-balanced threaded search tree** (`sc_avl`, built with counts only).
* **The ASCII armour**: base64 coroutines, stored-block zlib streams with a deferred-modulo
  Adler-32, and the line-broken container.

Loops and objects of the source are methods and classes here; what they compute is stated
by functions (`Flat`, `MergeRecs`, `Stream`, `Armoured`, `Order`, ...) about which the
lemmas speak.  For notify the chain is closed: `NotifyArrays.InitInput` makes the flat array of
round 0 (`Recursion.Start`), `Levels` takes the flat array of each round to the next, and
`NotifyDirect.Output` reads the last one.  `FlatRuns` proves the theorems on runs again for plans
whose data and messages are the flat arrays themselves.

## Modules

| module | content |
|---|---|
| `Rounds` | message passing in rounds: invariant, progress, termination of every run |
| `Radix`, `Holders` | who sends to whom at a level of the n-ary recursion; which rank holds which pair |
| `Records`, `NotifyArrays` | record arrays and their merge, as values and as flat integer arrays |
| `Pattern`, `Recursion` | the pattern, what each rank holds after each level, runs of a notify recursion |
| `Binary`, `Nary`, `NotifyDirect`, `Nbx` | the versions of notify |
| `Levels`, `FlatRuns` | one level of either recursion on flat arrays; runs on flat arrays |
| `Allgather` | the recursive allgather |
| `Arrays`, `Hash`, `HashArray` | permutation, split, hash table, hash array |
| `AvlShape` ... `AvlUneven`, `SearchTree` | nodes in memory, rotations, threads, balance, unlinking, reachable trees, the tree object |
| `Powers` | powers of two |
| `Base64`, `Zlib`, `Armour` | the codec |

## Where code and documentation differ

* `src/sc_avl.h:174-180` says that `avl_search_closest` returns -1 if the returned node is
  smaller than the item.  The code (`src/sc_avl.c:152-168`) returns -1 if the item is
  smaller than the node; `SearchTree.Closest` follows the code.
* `src/sc_avl.h:150-154` says that `avl_unlink_node` returns at once for a null node.  The
  code (`src/sc_avl.c:345-356`) reads the node; `SearchTree.Tree.UnlinkNode` requires a
  node of the tree.
* `src/sc_notify.h:395-397` promises that the output payload has as many entries as there are
  senders.  `sc_notify_reset_output` leaves the array alone when there are no senders
  (`src/sc_notify.c:874-928`).  `NotifyDirect.StalePayload` is an input where this fails, and
  `NotifyDirect.ReturnedIffCarries` says exactly when the promise is kept.

## Model

| member | source | states |
|---|---|---|
| `Rounds.TagsDiffer` | src/sc_notify.c:2595-2595 | On one source and destination the tags of two levels differ, so no level's message can match another level's receive |
| `Rounds.ReceivedIsExpected` | src/sc_notify.c:2665-2700 | Whatever an any-source receive matches in a reachable state is a message of the rank's current level, from a rank that must send to it, not received before, alone in its queue and carrying what the sender held |
| `Rounds.RunInv` | src/sc_notify.c:2601-2715 | The global invariant on queues and local data holds in every state of every run |
| `Rounds.DoneMeans` | src/sc_notify.c:2709-2714 | When all ranks are done every queue is empty and every rank holds the data of its last level, whatever the order of arrival |
| `Rounds.Progress` | src/sc_notify.c:2636-2714 | No deadlock: until all ranks are done some rank is ready whichever source it names, and a transition is possible |
| `Rounds.ReadyMoves` | src/sc_notify.c:2636-2714 | A ready rank has a transition: it can post, receive or complete its level |
| `Rounds.RunBounded` | src/sc_notify.c:2601-2715 | Every run ends: its length is bounded by ranks and rounds |
| `Radix.RouteAdvances` | src/sc_notify.c:1318-1366 | The record for `to` is kept or sent to an existing rank that is congruent to `to` modulo the longer length; it is kept exactly if its part is the own part |
| `Holders.Holder` | src/sc_notify.c:1186-1261 | At every level the one rank that holds a pair exists and is congruent to its destination modulo the length of that level |
| `Holders.Arrived` | src/sc_notify.c:1186-1261 | After the last level each pair is at its destination |
| `Holders.DestsExist` | src/sc_notify.c:1340-1365 | Every send goes to another existing rank |
| `Holders.ExpectedCount` | src/sc_notify.c:1253-1272 | The number of receives from the hipart/remaining cases is the number of ranks that send to this one, including those of a short next group |
| `Radix.SlotOfSource` | src/sc_notify.c:1367-1399 | The slot of each source, and of the rank itself, lies in 0..nrecv and determines the source |
| `Radix.SourceOfSlot` | src/sc_notify.c:1367-1399 | Each slot in 0..nrecv belongs to a source or the rank itself: the slots are a bijection |
| `Holders.BuffersAreSources` | src/sc_notify.c:1274-1316 | The nrecv + 1 receive buffers are exactly those of the sources and the rank itself |
| `Records.Unique` | src/sc_notify.c:930-935 | An ordered record array is determined by its pairs and payloads |
| `Records.MergeOk` | src/sc_notify.c:936-1062 | Merging two ordered arrays with different pairs gives the ordered array of the union, payloads attached |
| `Records.MergeCommutes` | src/sc_notify.c:936-1062 | The merge is commutative |
| `Records.MergeAssociates` | src/sc_notify.c:936-1062 | The merge is associative |
| `NotifyArrays.MergeLists` | src/sc_notify.c:1004-1027 | The from-lists of one destination are merged in ascending order with their payloads |
| `NotifyArrays.SkipMarked` | src/sc_notify.c:956-968 | Records marked -1 are skipped, and nothing else |
| `NotifyArrays.Merge` | src/sc_notify.c:936-1062 | The flat output is the merge of the unmarked records of the first array with the second array |
| `NotifyArrays.InitInput` | src/sc_notify.c:818-864 | One record of 3 + npay integers for each receiver, naming this rank as the sender |
| `NotifyArrays.ResetOutput` | src/sc_notify.c:874-928 | Senders and payloads are read off the single record, in order; without a record there are none and the payload array stays |
| `NotifyArrays.MarkForPeer` | src/sc_notify.c:2638-2659 | The records for the peer are copied to the send buffer and marked -1, all others stay |
| `NotifyArrays.Distribute` | src/sc_notify.c:1318-1338 | Send buffer j gets exactly the records for part j, in order |
| `NotifyArrays.MergeAllOk` | src/sc_notify.c:1401-1426 | Merging any number of arrays with different pairs gives the ordered union of all |
| `NotifyArrays.MergeTree` | src/sc_notify.c:1401-1426 | The doubling-stride loop leaves the merge of all buffers in buffer 0 after exactly nrecv merges |
| `Pattern.SendersSpec` | src/sc_notify.h:26-29 | The specification: q is a sender of `me` if and only if `me` is a receiver of q; ascending, hence each once |
| `Pattern.TableUnique` | src/sc_notify.c:1448-1468 | Any ordered record array that holds a selection of the pattern's pairs is the canonical one |
| `Pattern.MergeTables` | src/sc_notify.c:936-1062 | Merging two disjoint selections of the pattern gives their union |
| `Recursion.PlanMatched` | src/sc_notify.c:1253-1399 | Sends and receives of every level match in number, source, destination and tag |
| `Recursion.PlanExplained` | src/sc_notify.c:1186-1469 | At every level, for any set of messages received so far, a rank's array is the table of exactly the pairs it holds |
| `Recursion.Start` | src/sc_notify.c:818-864 | The input records of a rank are the table of exactly the pairs it holds before the first level |
| `Recursion.Finish` | src/sc_notify.c:2720-2739 | What a rank holds after the last level is one record of its senders, or nothing |
| `Recursion.EveryRun` | src/sc_notify.c:2595-2714 | For any recursion with this geometry, in every interleaving: bounded length, never stuck, and a run that cannot go on has left no message and each rank with one record of exactly its senders and their payloads, or nothing |
| `Nary.TreeDepth` | src/sc_notify.c:1514-1527 | The depth is large enough for the ranks, is 1 exactly for P <= nbot, and from 3 on is the least such depth |
| `Nary.PaddedIs` | src/sc_notify.c:1514-1527 | The padded number of ranks is ntop * nint^(depth - 2) * nbot |
| `Nary.WidthsAre` | src/sc_notify.c:1241-1243 | nbot is the width of the deepest level, ntop that of the top, nint that of all in between |
| `Nary.BranchIsMoved` | src/sc_notify.c:1318-1366 | What is sent to a rank is the table of exactly the pairs whose holder changes to it |
| `Nary.NaryNotify` | src/sc_notify.c:1186-1570 | For every P, all positive widths and a sufficient depth, every run goes on until it has delivered the reversed pattern with payloads; that the plan merges on arrival makes no difference by `Levels.NaryReceive` |
| `Nary.AnyMergeOrder` | src/sc_notify.c:1341-1426 | Merging the buffers of a level in any order gives the array of the next level |
| `Levels.SlotOrder` | src/sc_notify.c:1367-1399 | The sources in the order of their slots: each source and the rank itself once |
| `Levels.ArrivalsSeparate` | src/sc_notify.c:1401-1426 | The buffers of a level hold different pairs, so that they can be merged in any order |
| `Levels.NarySend` | src/sc_notify.c:1277-1365 | From the flat array of a level each send buffer is the flat message that the plan of the runs sends to that peer, and the own buffer what stays |
| `Levels.NaryReceive` | src/sc_notify.c:1253-1428 | Messages in any order of arrival, filed by slot and merged by doubling stride, give the flat array that the next level starts from, after exactly nrecv merges |
| `Binary.XorBit` | src/sc_notify.c:2614-2614 | me ^ 2^k adds or subtracts 2^k according to bit k |
| `Binary.RoundUp` | src/sc_notify.c:2755-2758 | The padded length is at least P and its half is less than P |
| `Binary.LikeNary` | src/sc_notify.c:2613-2634 | XOR peer, lower fallback peer and second peer send to and receive from the same ranks, as often, as the n-ary recursion of width 2 |
| `Binary.BinaryHop` | src/sc_notify.c:2636-2659 | Each pair stays or goes to the peer according to the residue test, to the next holder; no pair must move when the fallback peer is negative |
| `Binary.OutgoingIsMoved` | src/sc_notify.c:2637-2663 | The send buffer is the table of exactly the pairs that change their holder |
| `Binary.RemainingIsMoved` | src/sc_notify.c:2637-2706 | The unmarked rest of the array is the table of exactly the pairs that stay |
| `Levels.BinarySend` | src/sc_notify.c:2636-2663 | From the flat array of a level the send buffer is the flat message of the plan, and the marked array holds what stays |
| `Levels.BinaryReceive` | src/sc_notify.c:2665-2706 | One, two or no messages in either order, merged into the marked array, give the flat array that the next level starts from |
| `Binary.BinaryNotify` | src/sc_notify.c:2576-2772 | For every P >= 1, every run delivers to each rank exactly its senders in ascending order, without deadlock or leftover message |
| `FlatRuns.ParseFlat` | src/sc_notify.c:930-935 | A flat array and its records determine each other: reading the flat form back gives the records |
| `FlatRuns.NarySends` | src/sc_notify.c:1277-1365 | The message of the n-ary flat plan is the flat array that `Levels.NarySend` puts into the buffer for that peer |
| `FlatRuns.BinarySends` | src/sc_notify.c:2636-2663 | The message of the binary flat plan is the flat array that `Levels.BinarySend` makes |
| `FlatRuns.FlatExplained` | src/sc_notify.c:1186-1469 | At every level, for any set of messages received so far, the integers a rank has are the flat form of the table of exactly the pairs it holds |
| `FlatRuns.EveryFlatRun` | src/sc_notify.c:2595-2714 | Every run on flat arrays is bounded and never stuck, and ends with no message left and in each rank the flat form of its senders and their payloads |
| `FlatRuns.NaryFlatRuns` | src/sc_notify.c:1186-1570 | The same for the n-ary recursion: every P, all positive widths, a sufficient depth |
| `FlatRuns.BinaryFlatRuns` | src/sc_notify.c:2576-2772 | The same for the binary recursion and every P >= 1 |
| `NotifyDirect.Output` | src/sc_notify.c:874-928 | The output of either recursion is `Senders`; the payload array is right if and only if somebody names this rank or it came in empty |
| `NotifyDirect.ReturnedIffCarries` | src/sc_notify.c:874-928 | That condition for every valid pattern and every incoming payload array; to have a sender is to be named by some rank |
| `NotifyDirect.StalePayload` | src/sc_notify.h:395-397 | Two ranks that both name rank 0: rank 1 has no senders and gets a payload array of length 1 back |
| `NotifyDirect.Scan` | src/sc_notify.c:1104-1109 | The inner loop stops at the first hit and finds `me` exactly if it is in that rank's list |
| `NotifyDirect.NotifyAllgather` | src/sc_notify.c:1066-1117 | From the gathered counts and lists the senders are `Senders` |
| `NotifyDirect.PexFill` | src/sc_notify.c:1609-1620 | The block for each rank starts with 1 and the payload exactly if that rank is a receiver, and with 0 otherwise |
| `NotifyDirect.NotifyPex` | src/sc_notify.c:1574-1664 | From the exchanged blocks the senders are `Senders`, each with its payload |
| `Nbx.RunInv` | src/sc_notify.c:1927-1999 | In every state of every run each message is unsent, in transit or received once; a rank in the barrier has had all its sends matched |
| `Nbx.LoopLeftComplete` | src/sc_notify.c:1954-2003 | A rank that has left the loop has no message under way to it, and its sorted list is `Senders` with their payloads, each once |
| `Nbx.Progress` | src/sc_notify.c:1954-1999 | Until all ranks have left the loop a call that MPI must let succeed is pending, and a transition is possible |
| `Nbx.RunBounded` | src/sc_notify.c:1927-1999 | Only finitely many steps change anything |
| `Allgather.CallMatches` | src/sc_allgather.c:75-124 | Every send of a call has a posted receive with equal source, tag and range, also the extra one for an odd size |
| `Allgather.CallComplete` | src/sc_allgather.c:75-124 | Every posted receive has its send |
| `Allgather.BuffersApart` | src/sc_allgather.c:75-124 | No receive overlaps what the same rank sends in that call |
| `Allgather.CountInCall` | src/sc_allgather.c:26-124 | The number of receives of a call is the number of ranks that send to this one in it |
| `Allgather.AllgatherRuns` | src/sc_allgather.c:26-131 | For every group size and data, every run is bounded, can go on until all ranks are done, and ends with empty queues and all blocks in rank order everywhere |
| `Arrays.Cycle` | src/sc_containers.c:606-629 | The inner loop moves elements to their place until the position is fixed; each step adds a fixed point |
| `Arrays.Permute` | src/sc_containers.c:577-636 | out[newind[i]] = in[i] for all i; the index array ends as the identity, or untouched with keepperm |
| `Arrays.AllFinal` | src/sc_containers.c:456-476 | Offsets that are final for every type split the array |
| `Arrays.RaiseLow` | src/sc_containers.c:499-504 | Raising low keeps the stated invariants |
| `Arrays.LowerHigh` | src/sc_containers.c:505-515 | Lowering high keeps the stated invariants |
| `Arrays.NextStep` | src/sc_containers.c:516-531 | Going to the next step keeps the stated invariants |
| `Arrays.Split` | src/sc_containers.c:444-536 | offsets[k] <= j < offsets[k+1] exactly if element j has type k; the loop ends |
| `Hash.CountIsCardinality` | src/sc_containers.c:1217-1288 | The sum of the list lengths is the size of the set of elements |
| `Hash.OneMatch` | src/sc_containers.c:1426-1446 | No two elements are equal under the user's function |
| `Hash.Rehash` | src/sc_containers.c:1250-1287 | Moving all elements to new slots keeps the set, the count and each element in slot hash mod size |
| `Hash.ResizedLoad` | src/sc_containers.c:1235-1247 | After a check there are at least 255 slots and fewer than 4 elements per slot |
| `Hash.ResizedIff` | src/sc_containers.c:1235-1247 | A check grows the table if and only if there are four elements a slot, and shrinks it if and only if there is at most one on four slots and at least 1016 slots; a shrunk table has room for all elements |
| `Hash.GrownShrinks` | src/sc_containers.c:1235-1247 | Shrinking goes back to exactly the size before growing |
| `Hash.EverySize` | src/sc_containers.c:1470-1512 | In every run of insertions and removals on a new table there are at least 255 slots, less than four elements a slot, and fewer than 1016 slots or at most four slots for each element, counted in blocks of 256 |
| `Hash.TightBound` | src/sc_containers.c:1505-1509 | By that bound there are fewer than 1016 or fewer than 4 count + 1020 slots: an emptied table has gone back below 1016 |
| `Hash.NoCheckNeeded` | src/sc_containers.c:1475-1481 | When the count is no multiple of the number of slots the limit cannot have been reached |
| `Hash.Table.MaybeResize` | src/sc_containers.c:1220-1288 | The same elements, each in the slot of its hash value; more slots if and only if there were four elements a slot, fewer if and only if there was at most one on four slots and at least 1016 slots; one check counted, and one action exactly if the size changed |
| `Hash.Table.Scan` | src/sc_containers.c:1426-1446 | In any table, the first entry equal to v in the slot of its hash, or none |
| `Hash.Table.Lookup` | src/sc_containers.c:1426-1446 | Found if and only if an equal element is in the table, and where |
| `Hash.Table.InsertUnique` | src/sc_containers.c:1448-1484 | Adds the element exactly if none equal is there, gives its position also after a resize, keeps placement and load; a check is made exactly if the new count is a multiple of the slots |
| `Hash.Table.Remove` | src/sc_containers.c:1486-1515 | Removes the one equal element exactly if there is one, keeps placement and load; a check is made exactly if the new count is a multiple of 256 |
| `Hash.Table.Truncate` | src/sc_containers.c:1354-1388 | No element is left, the slots stay |
| `HashArray.IndexLawful` | src/sc_containers.c:1583-1613 | The hash and equality on indices, with -1 for the current object, respect an equivalence if the user's do |
| `HashArray.ReplaceSentinel` | src/sc_containers.c:1708-1737 | Writing the new index over -1 leaves no sentinel and each index 0..n once, in the right slot |
| `HashArray.SameIndexes` | src/sc_containers.c:1708-1737 | Filling the new element with any object equal to the searched one keeps the table right |
| `HashArray.ValidFirst` | src/sc_containers.c:1680-1705 | In a right table the search for an element finds its own index |
| `HashArray.AllFirst` | src/sc_containers.c:1649-1671 | If every search finds its own index and there are as many entries as elements, the table is right |
| `HashArray.HashArray.Lookup` | src/sc_containers.c:1680-1705 | Found if and only if an element is equal, and then the one position of such an element |
| `HashArray.HashArray.IsValid` | src/sc_containers.c:1649-1671 | True if and only if the table is right, also when entries are missing, repeated or out of their slot, as after an element was changed |
| `HashArray.HashArray.InsertUnique` | src/sc_containers.c:1707-1737 | Grows the array by one exactly if no element is equal, the table being right once that element is filled; otherwise gives the position of the equal one |
| `HashArray.HashArray.Fill` | src/sc_containers.h:1156-1169 | After the caller has filled the element the whole object is valid |
| `AvlBalance.LgIsBitLen` | src/sc_avl.c:54-63 | The shift cascade gives the number of binary digits of every 32-bit number |
| `AvlBalance.CheckBalanceIs` | src/sc_avl.c:66-92 | The shift tests ask whether the bit lengths of the two sizes differ by more than one, and which is greater |
| `AvlBalance.FixKeeps` | src/sc_avl.c:475-591 | One turn keeps the in-order traversal, hence elements and size |
| `AvlRotate.SingleTree` | src/sc_avl.c:487-501 | After the pointer updates of a single rotation links, parents and counts are those of the rotated tree |
| `AvlRotate.DoubleTree` | src/sc_avl.c:502-528 | The same for a double rotation |
| `AvlRotate.RotateRight` | src/sc_avl.c:476-529 | The left-heavy case makes the turned tree and touches no other node, no thread and no item |
| `AvlRotate.RotateLeft` | src/sc_avl.c:530-583 | The right-heavy case, likewise |
| `AvlRebalance.RebalanceKeeps` | src/sc_avl.c:460-594 | All turns up to the root keep the traversal |
| `AvlRebalance.Rebalance` | src/sc_avl.c:460-594 | From stale counts on the path to a fully linked tree with right counts, a turn at every level; threads and items unchanged |
| `AvlDepth.FixRestores` | src/sc_avl.c:475-591 | One turn balances a node one of whose subtrees has just grown by one |
| `AvlDepth.RebalanceRestores` | src/sc_avl.c:460-594 | After an insertion into a balanced tree the turns up to the root make it balanced |
| `AvlDepth.DepthBound` | src/sc_avl.c:66-92 | A node at depth h of a balanced tree of n nodes has 5^h <= 4^h n |
| `AvlTree.InsertRunBalanced` | src/sc_avl.c:303-317 | In every run of insertions each tree is balanced and obeys the depth bound |
| `AvlReach.RunTo` | src/sc_avl.c:251-317 | Every balanced tree is the end of a run of insertions, of different nodes if its nodes are different |
| `AvlReach.ReachedIffBalanced` | src/sc_avl.c:251-317 | The trees that runs of insertions make are exactly the balanced ones |
| `AvlThread.ThreadInsert` | src/sc_avl.c:262-271 | The thread with the new node between its neighbours |
| `AvlThread.ThreadRemove` | src/sc_avl.c:351-359 | The thread without the node |
| `AvlUnlink.Takeout` | src/sc_avl.c:361-394 | All three cases of taking a node out leave the tree without it, only the counts up from the balance node being stale |
| `AvlUnlink.DropOrder` | src/sc_avl.c:345-397 | The traversal afterwards is the old one without that node |
| `AvlUneven.UnlinkBalancedIff` | src/sc_avl.c:345-397 | A removal from a balanced tree keeps it balanced if and only if, at every level above the hole it leaves, the sizes before the call say that the turn there can mend the other side |
| `AvlUneven.UnlinkedIsUpFrom` | src/sc_avl.c:369-396 | All three cases of a removal are turns up from one hole and the subtree that fills it |
| `AvlUneven.UnlinkCanUnbalance` | src/sc_avl.c:345-397 | A removal can leave a balanced tree unbalanced: a tree of 27 different nodes at the end of a run of 27 insertions |
| `SearchTree.Tree.InsertTop` | src/sc_avl.c:244-249 | The tree has exactly this node |
| `SearchTree.Tree.InsertBefore` | src/sc_avl.c:251-275 | The new node comes just before the given one, or last; traversal, thread, links and counts agree |
| `SearchTree.Tree.InsertAfter` | src/sc_avl.c:277-301 | The new node comes just after the given one, or first; likewise |
| `SearchTree.Descend` | src/sc_avl.c:135-168 | The search ends at an equal node, or at a free place next to which the item lies strictly between its neighbours |
| `SearchTree.Tree.SearchClosest` | src/sc_avl.c:135-168 | The same for the tree, null exactly if it is empty |
| `SearchTree.Tree.InsertNode` | src/sc_avl.c:303-317 | Null and nothing changed exactly if an equal item is there; otherwise the node is in, and the order stays strict |
| `SearchTree.Tree.UnlinkNode` | src/sc_avl.c:345-397 | The nodes are the old ones without this, in the same order; thread, links and counts agree; the new tree is the `UnlinkedTree` of the old one at this node, so `AvlUneven.UnlinkBalancedIff` decides its balance |
| `SearchTree.Tree.Count` | src/sc_avl.c:95-97 | The number of nodes |
| `SearchTree.Tree.At` | src/sc_avl.c:99-118 | The node of rank u in the traversal, null beyond the end |
| `SearchTree.Tree.Index` | src/sc_avl.c:120-132 | The rank of the node: the inverse of `At` |
| `SearchTree.Tree.ToArray` | src/sc_avl.c:616-668 | All items in order |
| `Base64.EncodeAppend` | libb64/cencode.c:36-100 | Encoding can be suspended at any byte |
| `Base64.AlphabetIs` | libb64/cencode.c:19-26 | The digits are "ABC...Zabc...z0123456789+/", value by value |
| `Base64.DecodedDigits` | libb64/cdecode.c:15-29 | A byte is taken if and only if it is one of the 64 digits, and then as its value |
| `Base64.DigitsAre` | libb64/cdecode.c:15-29 | The digits are exactly the characters of that table; '=' is none |
| `Base64.RfcDigits` | libb64/cencode.c:36-126 | Character i of the encoding is the table's entry for bits 6 i to 6 i + 5 of the text, and '=' where the text has ended |
| `Base64.DecodedLength` | libb64/cdecode.c:39-105 | Any bytes: n digits complete 3 n / 4 bytes from the start, and the state counts the digits modulo 4 |
| `Base64.GroupIs24Bits` | libb64/cencode.c:36-100 | A group of the reference encoding spells the 24 bits of three bytes in four digits |
| `Base64.EncodeIsRfc` | libb64/cencode.c:36-126 | The coroutine with its end is the encoding of section 4 of RFC 4648, which `RfcDigits` spells out bit by bit |
| `Base64.DecodeIgnores` | libb64/cdecode.c:39-105 | Bytes other than the 64 digits do not matter at any position |
| `Base64.RoundTrip` | libb64/cdecode.c:39-105 | Decoding inverts the reference encoding |
| `Base64.PiecewiseEncode` | libb64/cencode.c:36-126 | Encoding in any pieces gives the reference encoding of the whole |
| `Base64.PiecewiseRoundTrip` | libb64/cdecode.c:39-105 | Any pieces in, any pieces and any foreign bytes in between on the way back: the original bytes |
| `Base64.Encoder.Block` | libb64/cencode.c:36-100 | The resumable loop appends the coroutine's output and leaves its state |
| `Base64.Encoder.BlockEnd` | libb64/cencode.c:102-126 | The padding for the state |
| `Base64.Decoder.Block` | libb64/cdecode.c:39-105 | The resumable loop appends the decoded bytes and leaves its state |
| `Zlib.LimitFits` | src/sc_io.c:638-663 | 5000 unreduced additions stay below 2^32 |
| `Zlib.TrackAdd` | src/sc_io.c:650-660 | Each unreduced 32-bit addition does not wrap and is congruent to the reduced sums |
| `Zlib.AdlerUpdate` | src/sc_io.c:638-663 | The deferred modulo gives the per-byte checksum of section 2.2 of RFC 1950 |
| `Zlib.ChecksumIs` | src/sc_io.c:638-663 | For every data: the low half is 1 plus the sum of the bytes, the high half the sum of that over all nonempty prefixes, both modulo 65521 |
| `Zlib.BigEndian` | src/sc_io.c:730-733 | The four bytes spell the number with the highest byte first |
| `Zlib.StoredLength` | src/sc_io.c:665-672 | The bound is the exact length of the stream |
| `Zlib.StoredBlock` | src/sc_io.c:691-723 | Block k stands at byte 65536 k: the mark of the last block, length and complement with the low byte first, and bytes 65531 k on of the data |
| `Zlib.StreamFrame` | src/sc_io.c:681-733 | 0x78, 0x01, the blocks, the checksum with the highest byte first |
| `Zlib.Noncompress` | src/sc_io.c:674-734 | The output is the stream of stored blocks of section 3.2.4 of RFC 1951 and fills the bound exactly |
| `Zlib.StreamInverse` | src/sc_io.c:736-861 | Reading back a stream gives the data, for every data |
| `Zlib.HeaderFitsIff` | src/sc_io.c:752-772 | A header is accepted if and only if it has method 8, a window of at most 32K, check bits divisible by 31 and no dictionary |
| `Zlib.AcceptedIff` | src/sc_io.c:736-861 | A source is accepted if and only if it is such a header, stored blocks of any sizes that add up to the asked size, and the checksum of their data, which is then the result |
| `Zlib.Accepted` | src/sc_io.c:736-861 | Whatever is accepted has the asked size and the checksum of its data |
| `Zlib.Nonuncompress` | src/sc_io.c:736-861 | The loop computes that reading, on every input |
| `Armour.LinesLength` | src/sc_io.c:946-949 | The lines fill exactly the precomputed size, but for the closing NUL |
| `Armour.LinesPlaced` | src/sc_io.c:951-1013 | Character i of the encoding of the whole payload stands in line i / 76 at column i % 76, a line taking 78 bytes |
| `Armour.LineBreaks` | src/sc_io.c:973-1006 | After each 76 characters, and at the end, come the line break byte and a newline |
| `Armour.ByteAt` | src/sc_io.c:915-919 | Byte i of the size prefix is size / 256^(7 - i) modulo 256 |
| `Armour.SizeInverse` | src/sc_io.c:914-920 | The big-endian size prefix can be read back |
| `Armour.EncodeZlib` | src/sc_io.c:873-1017 | The output is the armoured text and fills the precomputed size |
| `Armour.DecodeInfo` | src/sc_io.c:1019-1076 | Error for fewer than 12 bytes or a wrong length, else size and format character of the first 12 |
| `Armour.InfoBack` | src/sc_io.c:1019-1076 | On encoder output these are the length of the data and 'z' |
| `Armour.LinesBack` | src/sc_io.c:1112-1164 | Reading the lines back gives the payload, for every line break byte |
| `Armour.UnarmourIff` | src/sc_io.c:1105-1164 | A text is read if and only if it ends with a NUL, all lines but the last are full of digits and the last completes a byte; the result is the decoding of all characters outside the line breaks |
| `Armour.DecodedIff` | src/sc_io.c:1078-1235 | Decoding succeeds with some bytes if and only if the payload has 'z', their size and a stream that gives them, and the size is a multiple of the element size, not above the maximum and not above the room of a view |
| `Armour.DecodeZlib` | src/sc_io.c:1078-1235 | The method computes the decoding function with all its error cases; what it returns fits element size, maximum and the room of a view |
| `Armour.ArmourRoundTrip` | src/sc_io.c:1078-1235 | For every byte string and line break byte, decoding the encoder's output gives the bytes if and only if the output array can take that size, and an error otherwise |

## Left out

- SearchTree.Tree.UnlinkNode: says which tree results, but does not promise balance, which is false in general (`AvlUneven.UnlinkCanUnbalance`); `AvlUneven.UnlinkBalancedIff` says exactly when it is kept.
- AvlTree.InsertRunBalanced: counts are unbounded numbers and shifts are divisions; C defines the shift by lg + 1 only for subtree counts below 2^30.
- NotifyArrays.InitInput: a payload is npay whole integers; byte sizes that are no multiple of an integer are rounded down by the source and are not modelled.
- Nary.NaryNotify: the shortcut for a single rank, which involves no message, is not modelled; the product of the widths is unbounded.
- Nbx.RunInv: one call on a fresh communicator; back-to-back calls share a tag and are not modelled.  A probe that finds nothing changes no state and is no step.
- Armour.DecodeZlib: input lengths on which the source's debug assertions fail or its sizes would wrap are answered with an error.
- Base64.DecodeIgnores: holds where `char` is signed; where it is unsigned the loop condition `fragment < 0` (`libb64/cdecode.c:64`) is never true and bytes outside the alphabet are not skipped.
- Base64.Decoder.Block: the decoder writes whole bytes to its output, not partial ones to be completed by the next call; the tables are given in closed form.
- Hash.EverySize: runs of insertions and removals; `sc_hash_truncate` keeps all slots, so that after it the bound by the count need not hold.
- Hash.Table.MaybeResize: lists and link pools are sequences; pointers into lists are slot and position.
- SearchTree: nodes are addresses in a map from addresses to node records, not heap objects; freeing nodes and `avl_fixup_node` are not modelled.
- sc_notify_payloadv_nbx and the other variable-size versions, ranges, superset, PCX and RSX notify.
- MPI itself: sends, any-source receives and the non-blocking barrier are steps of the state machines; allgather and all-to-all results are given as inputs.
- The real zlib and the puff inflater; compressed blocks.
- Priority queue, uniq, recycle array, key-value store, integer power, random numbers: easier than what is here.
- Storage management of sc_array and sc_mempool, reference counts, logging, options, statistics, files and VTK output.
