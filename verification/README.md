# Verified models of the server's consensus core and indexes

This project models, in Dafny 4.11, the parts of the key-value and vector server that keep state, and
proves that each of them does what it is for.

* **Raft** (`Raft*.dfy`). `RaftOps` gives the server's operations as functions with the branches and
  assertions of `src/raft/raft.hpp`; `RaftServer` and `RaftLog` are the same operations as classes that
  update the server record and the growable array log in place, proved equal to those functions.
  `RaftCluster` is a cluster of such servers on a network that may lose, duplicate and reorder messages.
  A failed assertion stops a server. Election safety, log matching and the leader's commit rule hold in
  every run. State-machine safety does not: `RaftReordering` is a run of three servers in which one
  delayed empty append message makes two servers apply different entries at one position, with no
  assertion failing. `RaftCut` and `RaftNetwork` give the exact condition. A step keeps a safe state safe
  if and only if it does not deliver an append without entries that deletes something its receiver
  acknowledged to the sender in that term; every run without such a delivery is safe, whatever else is
  lost, duplicated or reordered. `RaftOrdered` derives the theorems for first-in-first-out links, which
  never make such a delivery. `RaftEffects` states exactly what each message and timeout does, in the
  protocol's terms. `RaftCampaign` and `RaftProgress` prove that the cluster can always go on: elections
  succeed where the votes are deserved, followers catch up, and entries are applied by a majority.
* **Hash map** (`Hash*.dfy`): chained tables, and the map that migrates nodes between two tables.
* **AVL tree** (`Avl*.dfy`): the rebalancing algorithms on values with their correctness and height
  bound, and the same algorithms on nodes on the heap, proved to have those values as their shapes.
* **Sorted set** (`ZSet.dfy`): the hash map, the tree and the member list together, as one finite map.
* **Position-tracking heap** (`Heap.dfy`).
* **HNSW links** (`Hnsw*.dfy`): the neighbour heuristic, the layer search, mutual connection, insertion
  and update over the layered link lists.
* **Exact nearest neighbours** (`BruteForce.dfy`) and the **request parser** (`RequestParser.dfy`).

`dafny verify dfyconfig.toml` checks everything. Mutexes are erased: each component is modelled
sequentially, the cluster as interleaved steps. Timers, random draws, levels and hash functions are
parameters or arbitrary choices; distances and scores are reals, integers unbounded.

Notes on reading the source. In `hnsw_core.hpp` names that do not match (`isUpdate`/`updateFlag`,
`maxM0_`/`max_M0_`, `cur_c`/`current_c`, `return_list()` for its size) are read as intended, and
`efConstruction_` is the larger of the parameter and `M_`. A queue ordered by distance only may hand out
any of its farthest members. `memcpy` followed by a byte swap is a big-endian read, as on the
little-endian hosts the parser is written for.

Some invariants are wrapped in a `Verdict`: it has the same meaning as the predicate inside, and keeps
proofs that only pass it along from expanding it.

## Model

| member | source | states |
|---|---|---|
| `RaftNetwork.StateMachineSafety` | src/raft/raft.hpp:1344-1607 | in every run on an arbitrary network in which no delivered empty append deletes an acknowledged entry, if one server has applied an entry at a position and a server (the same or another) has applied one there later in the run, the two entries are equal |
| `RaftNetwork.SafeExactly` | src/raft/raft.hpp:1518-1522 | from a state that satisfies the cluster, commitment and commit-index invariants with no server stopped, a step leads to such a state if and only if it does not deliver an empty append that deletes an entry acknowledged to its sender in that term |
| `RaftNetwork.SafeRuns` | src/raft/raft.hpp:1444-1574 | a run on an arbitrary network is safe throughout if and only if it contains no such delivery |
| `RaftNetwork.NoServerHalts` | src/raft/raft.hpp:1507-1541 | in a run without such a delivery no assertion of any server fails |
| `RaftCut.KeepsExactly` | src/raft/raft.hpp:1486-1551 | what the receiver holds of the sender's log survives an append if and only if the append is not an empty one, with a previous index above zero, that deletes before the end of it |
| `RaftCut.HaltsExactly` | src/raft/raft.hpp:1507-1541 | an append makes the assertion fail if and only if it is such an empty one and would delete a committed entry |
| `RaftOrdered.StateMachineSafety` | src/raft/raft.hpp:1344-1607 | the same agreement of applied entries in every run over in-order lossy links |
| `RaftOrdered.OrderedRunsCutNothing` | src/raft/raft.hpp:1813-1852 | every run over in-order links is a run of the arbitrary network in which nothing acknowledged is deleted |
| `RaftOrdered.NoServerHalts` | src/raft/raft.hpp:1507-1541 | over in-order links no assertion of any server ever fails |
| `RaftNetwork.TraceGrows` | src/raft/raft.hpp:1779-1805 | what a server has applied is never taken back in any run |
| `RaftProgress.ClusterGoesOn` | src/raft/raft.hpp:1285-1748 | in every run without cuts, a server whose log is no older than those of others that with it are a majority, and that can all still vote in its next term, is elected after its timeout and the exchange of votes, and an entry then handed to it is brought by heartbeats, appends and replies to be applied by all of them, after the same entries; no cut is among the events |
| `RaftProgress.EntryIsApplied` | src/raft/raft.hpp:1698-1748 | in every run without cuts, an entry taken by any leader that with some others is a majority, none of which has passed its term, is brought by such events to be applied by all of them |
| `RaftProgress.FollowerCatchesUp` | src/raft/raft.hpp:1379-1400 | in every run without cuts, a follower whose term is no later than the leader's agrees with the leader's whole log, has committed what the leader had, and is known to, after one timeout of the leader and at most one exchange more than the log has entries, whatever the follower held and the leader recorded |
| `RaftProgress.RefusedWhen` | src/raft/raft.hpp:1379-1395 | a leader's append is refused only by a follower of which the leader knows nothing and only from beyond the first index, so that going back always ends |
| `RaftProgress.KnownIsCommitted` | src/raft/raft.hpp:1412-1433 | a leader that has recorded a majority at its last entry, of its own term, has committed it |
| `RaftCampaign.ElectionSucceeds` | src/raft/raft.hpp:1285-1306 | in every reachable state on any network, such a server is elected in its next term, with its log, once its requests and their answers are delivered |
| `RaftPace.RunPaced` | src/raft/raft.hpp:1344-1442 | in every run on any network: no leader's next index exceeds a known match by more than one; a last entry recorded at a majority is committed; and a follower that acknowledged anything in its term holds the log its leader was elected with |
| `RaftEffects.VoteIsExact` | src/raft/raft.hpp:1582-1644 | a delivered vote request is granted if and only if its term is not earlier, no vote is held in that term, and the server's last entry is by term and then length no newer than the candidate's; the reply carries the later of the two terms |
| `RaftEffects.GrantExactly` | src/raft/raft.hpp:1609-1644 | the same with the exact term, vote and role after the request |
| `RaftEffects.StandsExactly` | src/raft/raft.hpp:1285-1306 | a candidate raises its term by one, votes for itself, counts no other vote and asks every other server with its last index and term |
| `RaftEffects.TimeoutExactly` | src/raft/raft.hpp:1314-1336 | at a timeout a server that does not lead stands and asks every other server, and a leader sends every other server its append |
| `RaftEffects.OfficeExactly` | src/raft/raft.hpp:1265-1283 | a new leader sets every other server's next index past its log and the match index to zero, and sends each an append from there |
| `RaftEffects.ClientExactly` | src/raft/raft.hpp:1698-1748 | the entry ends the leader's log in its term and is sent to every peer that lacks only it |
| `RaftEffects.ElectedExactly` | src/raft/raft.hpp:1654-1696 | a granted vote of the candidate's term makes it leader if and only if its voters and itself are a majority |
| `RaftEffects.RejectedExactly` | src/raft/raft.hpp:1379-1395 | a rejection of the leader's term that is not stale sets the next index to max(1, min(next - 1, current + 1, log length)), strictly lower unless it was one, and sends the append from there |
| `RaftEffects.AcknowledgedExactly` | src/raft/raft.hpp:1397-1442 | an acknowledgement records the match and next index, moves the commit index to what was acknowledged if and only if that is further and a majority is recorded there, and sends what is still missing |
| `RaftEffects.LaterTermAdopted` | src/raft/raft.hpp:1364-1375 | a message of a later term that is not ignored makes the server a follower of that term with no vote |
| `RaftEffects.AppendExactly` | src/raft/raft.hpp:1444-1574 | an append of the receiver's term or a later one is accepted if and only if the previous entry is held; in terms of the leader's log, the log after it, the commit index max(commit, min(log length, the leader's commit)) and the reply are exact, and so are the shortened log and reply of a refusal |
| `RaftEffects.LossIsNotRepaired` | src/raft/raft.hpp:1358-1360 | a follower that lost some but not all of what its leader recorded refuses what it is sent, and the leader ignores the refusal as a late one |
| `RaftEffects.IdleInputs` | src/raft/raft.hpp:1344-1377 | late or refused replies, refused votes, entries for a server that does not lead and periodic calls with nothing due change nothing and send nothing |
| `RaftEffects.StaleAppend` | src/raft/raft.hpp:1479-1484 | an append of an earlier term is refused with the receiver's term and length and changes nothing |
| `RaftReordering.ReorderingBreaksSafety` | src/raft/raft.hpp:1518-1522 | there is a run of three servers, with no failed assertion, in which a late empty append leads two servers to apply different entries at the second position |
| `RaftReordering.OnlyCutsBreakSafety` | src/raft/raft.hpp:1518-1522 | every run in which servers apply different entries at a position contains a delivery that deletes an acknowledged entry |
| `RaftCommit.LeaderCompleteness` | src/raft/raft.hpp:1582-1607 | entries that a majority acknowledged and whose last is of the leader's term are in the log with which every later leader is elected |
| `RaftCompleteness.StepKeepsCommitInv` | src/raft/raft.hpp:1609-1644 | every step that deletes nothing acknowledged keeps the promises of acknowledging and voting servers |
| `RaftCommitRule.LeaderCommitRule` | src/raft/raft.hpp:1397-1433 | on any network, when a reply moves a leader's commit index, some index at or after it holds an entry of the current term and a majority that includes the leader acknowledged up to it in this term |
| `RaftCommitRule.LeaderRule` | src/raft/raft.hpp:1412-1433 | the peers counted at their own match index and the leader all acknowledged the least of those matches, which is an entry of the leader's term |
| `RaftCommitRule.CommitsAgree` | src/raft/raft.hpp:1555-1559 | two servers agree on every entry that both have committed |
| `RaftCommitRule.HaltsOnCutsOnly` | src/raft/raft.hpp:2074-2080 | under the invariants an event makes an assertion fail if and only if it delivers an empty append that would delete an acknowledged and committed entry |
| `RaftSafety.ElectionSafety` | src/raft/raft.hpp:1285-1306 | on any network, servers that lead the same term at two moments of a run are the same server |
| `RaftSafety.OneVoteForOthersPerTerm` | src/raft/raft.hpp:1609-1644 | on any network a server grants its vote to at most one other server per term, and never to itself by message |
| `RaftElection.WinnersTermIsFree` | src/raft/raft.hpp:1654-1696 | a candidate with a majority of votes stands in a term that has no leader yet, although a same-term append clears a candidate's own vote |
| `RaftElection.NeverGrantsInOffice` | src/raft/raft.hpp:1624-1628 | a leader or candidate never grants a vote, so the assertion there holds |
| `RaftSafety.OnlyCutsCanHalt` | src/raft/raft.hpp:1379-1400 | on any network the only assertion that can fail is the one that protects committed entries |
| `RaftSafety.LogMatching` | src/raft/raft.hpp:1486-1551 | on any network, logs with entries of equal term at an index agree up to that index |
| `RaftSafety.LogMatchesMessages` | src/raft/raft.hpp:1813-1852 | the same between a log and an append message in flight, including the previous entry's term |
| `RaftSafety.LogsSorted` | src/raft/raft.hpp:1698-1748 | terms never decrease along a log nor exceed the server's term |
| `RaftSafety.LeaderAppendOnly` | src/raft/raft.hpp:1698-1748 | a leader's log only grows while its term lasts |
| `RaftSafety.NextIndexBounds` | src/raft/raft.hpp:1379-1400 | every leader keeps 1 <= next index <= log length + 1 and match index <= log length for each peer |
| `RaftSafety.SendsWholeSuffix` | src/raft/raft.hpp:1813-1852 | every append message sent reaches the end of the sender's log, which covers the commit index it carries |
| `RaftSafety.AcceptedPrefixVerified` | src/raft/raft.hpp:1555-1559 | an accepted append leaves exactly its entries at its place in the log, acknowledges up to them, and never moves the commit index past them, although the code takes the minimum with its own last index |
| `RaftSafety.StepKeepsInv` | src/raft/raft.hpp:1444-1574 | every event on an arbitrary network keeps the cluster invariant |
| `RaftSafety.RunInv` | src/raft/raft.hpp:1314-1336 | the cluster invariant holds after every run on an arbitrary network |
| `RaftReplication.AppendEffect` | src/raft/raft.hpp:1486-1559 | in terms of the sending leader's log: an accepted append leaves it held up to the message's end and the commit index at max(commit, min(log length, the leader's commit)); a rejected one leaves the commit index and at most cuts the conflict |
| `RaftNode.SingleNodeSafety` | src/raft/raft.hpp:1507-1541 | for any input sequence: last applied <= commit <= log length, the committed prefix is never altered, and the applied entries are exactly the log prefix |
| `RaftNode.ApplyAllOk` | src/raft/raft.hpp:1961-1965 | applying all ends with everything committed applied, in order, once |
| `RaftLog.ArrayLog.Append` | src/raft/raft.hpp:908-923 | appends one entry (refusing id zero), doubling the capacity when full |
| `RaftLog.ArrayLog.EnsureCapacity` | src/raft/raft.hpp:862-886 | doubling keeps the contents and leaves room |
| `RaftLog.ArrayLog.Delete` | src/raft/raft.hpp:977-994 | deletes the suffix from an index; the log is in order afterwards if and only if the index is at least one, and a smaller one leaves a negative count |
| `RaftLog.ArrayLog.GetAt` | src/raft/raft.hpp:954-970 | returns the entry at an index, or nothing outside the log |
| `RaftLog.ArrayLog.GetFrom` | src/raft/raft.hpp:925-952 | returns the place and exact number of the entries from an index on |
| `RaftLog.Replay` | src/raft/raft.hpp:862-994 | after any sequence of appends and deletes the array log holds what the same operations make of a plain sequence |
| `RaftServer.RaftNodeServer.RecvAppendEntries` | src/raft/raft.hpp:1444-1574 | the in-place operation does what `RaftOps.RecvAppend` says, halts included |
| `RaftServer.RaftNodeServer.RecvAppendEntriesResponse` | src/raft/raft.hpp:1344-1442 | the in-place operation does what `RaftOps.RecvAppendReply` says |
| `RaftServer.RaftNodeServer.RecvRequestVote` | src/raft/raft.hpp:1609-1644 | the in-place operation does what `RaftOps.RecvRequestVote` says |
| `RaftServer.RaftNodeServer.RecvVoteReply` | src/raft/raft.hpp:1654-1696 | the in-place operation does what `RaftOps.RecvVoteReply` says |
| `RaftServer.RaftNodeServer.RecvClientEntry` | src/raft/raft.hpp:1698-1748 | the in-place operation does what `RaftOps.RecvEntry` says |
| `RaftServer.RaftNodeServer.BecomeLeader` | src/raft/raft.hpp:1265-1283 | the in-place operation does what `RaftOps.BecomeLeader` says |
| `RaftServer.RaftNodeServer.BecomeCandidate` | src/raft/raft.hpp:1285-1306 | the in-place operation does what `RaftOps.BecomeCandidate` says |
| `RaftServer.RaftNodeServer.PeriodicWork` | src/raft/raft.hpp:1314-1336 | the in-place operation does what `RaftOps.RunPeriodic` says |
| `RaftServer.RaftNodeServer.ApplyAllCommitted` | src/raft/raft.hpp:1961-1965 | the loop terminates and does what `RaftOps.ApplyAll` says |
| `HashTable.HTable.Insert` | src/dsa/hashtable.hpp:100-114 | exactly one pair more, in front of the chain its hash selects, the other chains unchanged |
| `HashTable.HTable.Lookup` | src/dsa/hashtable.hpp:116-134 | the value last inserted under the key of those still there, and nothing exactly when there is none |
| `HashTable.HTable.Remove` | src/dsa/hashtable.hpp:136-164 | the newest pair with the key leaves if there is one, and nothing else changes |
| `HashTable.PushedIsNewest` | src/dsa/hashtable.hpp:100-134 | what was put in front is found under its key, and under any other key what was found before |
| `HashTable.HTable.StealFirstNode` | src/dsa/hashtable.hpp:166-180 | takes one pair of a non-empty table whose buckets below the position are empty, and never comes back empty |
| `HashMap.HMap.HelpResize` | src/dsa/hashtable.hpp:343-381 | terminates, moves exactly min(15, nodes left), keeps the multiset of pairs and drops the old table exactly when it is empty |
| `HashMap.HMap.StartResize` | src/dsa/hashtable.hpp:383-397 | keeps the multiset of pairs |
| `HashMap.HMap.MakeRoom` | src/dsa/hashtable.hpp:244-264 | a resize starts if and only if none is pending and the table is at its load, so the assertion in it holds |
| `HashMap.HMap.Insert` | src/dsa/hashtable.hpp:244-264 | exactly one pair more at every stage of a migration; with p and t nodes in the new and old table of capacity c, 15p + 16t <= 128c is kept while a migration is pending, of which each insertion moves min(15, left) |
| `HashMap.HMap.Find` | src/dsa/hashtable.hpp:271-291 | a value stored under the key in either table, nothing exactly when there is none; min(15, left) nodes migrate |
| `HashMap.HMap.Remove` | src/dsa/hashtable.hpp:293-308 | one pair with the key less if there is one, the rest kept; min(15, left) nodes migrate before |
| `HashRefinement.Replay` | src/dsa/hashtable.hpp:244-308 | over every run that only inserts absent keys, all answers and the final contents are those of a finite map |
| `HashRefinement.InsertRefines` | src/dsa/hashtable.hpp:100-114 | inserting leaves a representation of the updated map if and only if the key was absent |
| `HashRefinement.SizeRefines` | src/dsa/hashtable.hpp:321-324 | the number of pairs is the number of keys of the map they represent |
| `AvlSpec.SetCorrect` | src/dsa/avl_locking.hpp:75-94 | set keeps the tree ordered, balanced and with exact depths and weights, and updates the finite map |
| `AvlSpec.DelCorrect` | src/dsa/avl_locking.hpp:104-109 | del keeps all that and removes the key from the finite map |
| `AvlSpec.FindCorrect` | src/dsa/avl_locking.hpp:178-190 | searching agrees with the finite map |
| `AvlSpec.InsertBalances` | src/dsa/avl_locking.hpp:123-150 | inserting keeps the balance and raises the height by at most one |
| `AvlSpec.RemoveCorrect` | src/dsa/avl_locking.hpp:152-176 | removing a key, through the successor when there are two children, removes exactly it from the map |
| `AvlSpec.RemoveBalances` | src/dsa/avl_locking.hpp:152-176 | removing keeps the balance and lowers the height by at most one |
| `AvlSpec.FixKeeps` | src/dsa/avl_locking.hpp:192-210 | rebalancing keeps order and contents |
| `AvlSpec.FixBalances` | src/dsa/avl_locking.hpp:192-210 | rebalancing a node whose sides differ by at most two gives a balanced tree with exact depth and weight |
| `AvlSpec.RotateLeftKeeps` | src/dsa/avl_locking.hpp:238-256 | a left rotation keeps order and contents |
| `AvlSpec.RotateRightKeeps` | src/dsa/avl_locking.hpp:259-275 | a right rotation keeps order and contents |
| `AvlSpec.WeightBound` | src/dsa/avl_locking.hpp:277-283 | a balanced tree of depth d has weight at least Fib(d + 2) - 1 |
| `AvlSpec.SearchIsLogarithmic` | src/dsa/avl_locking.hpp:178-190 | the number of nodes on a search path is logarithmic in the weight |
| `AvlTree.Search` | src/dsa/avl_locking.hpp:178-190 | the loop ends at the node of the key or at null, and the number of nodes it visits is that path length and logarithmic in the weight |
| `AvlTree.Avl.Set` | src/dsa/avl_locking.hpp:75-94 | the heap tree stays an AVL tree and stands for the updated map |
| `AvlTree.Avl.Del` | src/dsa/avl_locking.hpp:104-109 | the heap tree stays an AVL tree and stands for the map without the key |
| `AvlTree.Avl.Get` | src/dsa/avl_locking.hpp:96-102 | the value of the key in the map, or nothing |
| `AvlTree.Avl.Exists` | src/dsa/avl_locking.hpp:111-115 | whether the key is in the map |
| `AvlTree.Replay` | src/dsa/avl_locking.hpp:75-115 | over every run of set, del and get the tree stays an AVL tree, answers as a finite map does and ends with that map |
| `AvlTree.Insert` | src/dsa/avl_locking.hpp:123-150 | the nodes relinked in place have the shape that insertion on values gives |
| `AvlTree.Remove` | src/dsa/avl_locking.hpp:152-176 | the nodes relinked in place have the shape that removal on values gives |
| `AvlTree.Fix` | src/dsa/avl_locking.hpp:192-210 | rotations in place have the shape that rebalancing on values gives |
| `ZSet.ZSet.Add` | src/dsa/zset.hpp:29-52 | true exactly for a new non-empty name; hash, tree and list stay in agreement and stand for the map with the new score; only new objects join the set |
| `ZSet.ZSet.UpdateScore` | src/dsa/zset.hpp:80-104 | true exactly for a member's name, which then has the new score in the tree, as does the node; the indexes agree afterwards if and only if the node is the member itself, or its namesake has that score already, or nothing was updated |
| `ZSet.StaleMember` | src/dsa/zset.hpp:80-104 | after an update through a node made outside the set the tree holds the new score, the member of that name the old one, and the indexes disagree |
| `ZSet.Replay` | src/dsa/zset.hpp:22-121 | every run of additions, updates by name and removals answers as a finite map does and ends with that map in hash, tree and list |
| `ZSet.ZSet.Remove` | src/dsa/zset.hpp:106-121 | true exactly for a member, which leaves hash, tree and list |
| `ZSet.ZSet.Lookup` | src/dsa/zset.hpp:22-27 | the member of that name, or null |
| `Heap.BinaryHeap.Push` | src/dsa/heap.hpp:27-31 | heap order and one item more for every item; exact cells stay exact if and only if the item's cell is not in use |
| `Heap.BinaryHeap.Pop` | src/dsa/heap.hpp:39-54 | nothing from an empty heap; otherwise a least item leaves, and order, the other items and exact cells are kept |
| `Heap.BinaryHeap.Update` | src/dsa/heap.hpp:63-73 | restores order and cells when only the value at the position is out of place; refuses a position out of range |
| `Heap.BinaryHeap.Change` | src/dsa/heap.hpp:63-73 | a value written in place and then updated: heap order, that one item replaced, cells exact |
| `Heap.BinaryHeap.SiftUp` | src/dsa/heap.hpp:104-123 | restores a heap that is in order except that one item may be below its parent, keeping the items and cells |
| `Heap.BinaryHeap.SiftDown` | src/dsa/heap.hpp:126-164 | restores a heap that is in order except that one item may be above its children, keeping the items and cells |
| `Heap.RootIsLeastOf` | src/dsa/heap.hpp:180-190 | the root of a heap is a least item |
| `Heap.PopMany` | src/dsa/heap.hpp:39-54 | popping n times yields successive least items, which together with what is left are the items of the heap |
| `Heap.PopInOrder` | src/dsa/heap.hpp:39-54 | repeated pops come out in order, and popping past the end yields all items |
| `HnswSelect.SelectNeighbors` | src/hnsw/hnsw_scratch/hnsw_core.hpp:357-390 | fewer than M candidates are unchanged; otherwise at most M are kept, none nearer to an earlier kept one than to the query, and each one left out is nearer to a kept one it does not come before, or comes after M kept ones |
| `HnswSelect.SelectionIsUnique` | src/hnsw/hnsw_scratch/hnsw_core.hpp:369-386 | those conditions determine the selection |
| `HnswSearch.SearchLayer` | src/hnsw/hnsw_scratch/hnsw_core.hpp:294-356 | terminates with the best ef unmarked elements among those visited, all on the layer and reachable from the start; every neighbour of a listed element was visited, and when fewer than ef are found, everything reachable was |
| `HnswSearch.EmptySearch` | src/hnsw/hnsw_scratch/hnsw_core.hpp:294-356 | the search finds nothing if and only if everything reachable is marked deleted |
| `HnswLinks.PickedOk` | src/hnsw/hnsw_scratch/hnsw_core.hpp:400-409 | a chosen list has at most M distinct candidates and ends with one nearest to the query |
| `HnswLinks.LinkBack` | src/hnsw/hnsw_scratch/hnsw_core.hpp:453-494 | a chosen neighbour keeps a list that names the element already, appends it when there is room, and otherwise keeps the heuristic's choice among its neighbours and the element |
| `HnswLinks.LinkedBackOk` | src/hnsw/hnsw_scratch/hnsw_core.hpp:453-494 | the new list is within the bound, without repetition or self-link, and names only elements of the level |
| `HnswLinks.NearestCandidates` | src/hnsw/hnsw_scratch/hnsw_core.hpp:878-895 | the min(ef, size) candidates nearest to the neighbour, and the queue is never read when empty |
| `HnswIndex.Index.MutuallyConnect` | src/hnsw/hnsw_scratch/hnsw_core.hpp:392-498 | the element lists the heuristic's choice, each chosen one answers as `LinkBack` says, nothing else changes, all lists stay proper and none of the source's checks fires |
| `HnswIndex.Index.DescendOne` | src/hnsw/hnsw_scratch/hnsw_core.hpp:1055-1076 | the greedy walk on one level terminates at an element with no nearer neighbour, no farther than the start, and takes the strictly nearer ones in list order |
| `HnswIndex.Index.Descend` | src/hnsw/hnsw_scratch/hnsw_core.hpp:1055-1076 | on every level from the top to the one above the target the descent walks along the lists from where it was to an element with no nearer neighbour on that level |
| `HnswIndex.DescentIsLocal` | src/hnsw/hnsw_scratch/hnsw_core.hpp:1055-1076 | the same of the place where the descent is defined to arrive, for every graph with proper lists |
| `HnswIndex.Index.Insert` | src/hnsw/hnsw_scratch/hnsw_core.hpp:1021-1103 | a new element is linked on every level it shares with the entry point, to what the heuristic picks from the search of that level, which starts where the descent arrives and below that at the nearest element chosen above; the index stays in order; it finds nothing to link to if and only if the entry point is unmarked and only marked elements can be reached from where the descent arrives |
| `HnswIndex.Index.LinkNew` | src/hnsw/hnsw_scratch/hnsw_core.hpp:1078-1092 | of the searches on the levels from the top only the first can come back empty, exactly under that condition |
| `HnswStarved.StarvedRun` | src/hnsw/hnsw_scratch/hnsw_core.hpp:994-1104 | a run from an empty index, of six additions and five deletion marks, after which an addition finds nothing to link to although the entry point is unmarked |
| `HnswStarved.HubInsert` | src/hnsw/hnsw_scratch/hnsw_core.hpp:1078-1092 | the exact graph after each of those additions, whatever ties are broken |
| `HnswExact.FoundAll` | src/hnsw/hnsw_scratch/hnsw_core.hpp:294-356 | without marks, and with fewer elements in reach than ef, the candidates are exactly the elements in reach |
| `HnswIndex.Index.RepairConnections` | src/hnsw/hnsw_scratch/hnsw_core.hpp:924-980 | each level of the element is linked again to what the heuristic picks from the search of that level, which starts where the descent arrives and below that at the nearest element chosen above; a level whose search finds nothing else is left as it was |
| `HnswJoin.FoundNothing` | src/hnsw/hnsw_scratch/hnsw_core.hpp:958-978 | such a level has only marked elements and the element itself within reach of the start |
| `HnswIndex.Index.RewriteNeighbors` | src/hnsw/hnsw_scratch/hnsw_core.hpp:854-914 | the drawn neighbours of one layer get the heuristic's choice among the nearest of the one- and two-hop candidates, and nothing else changes |
| `HnswIndex.Index.UpdatePoint` | src/hnsw/hnsw_scratch/hnsw_core.hpp:844-918 | the vector is replaced, the neighbours rewritten on every layer, the element linked again from the searches of its levels, and the index stays in order |
| `HnswIndex.Index.AddPoint` | src/hnsw/hnsw_scratch/hnsw_core.hpp:994-1104 | updates the element of a known label or inserts a new one, with each error case under its exact condition, and keeps every list within max_M or max_M0, without self-link or repetition, and naming only existing elements of that level |
| `HnswIndex.Index.MarkDelete` | src/hnsw/hnsw_scratch/hnsw_core.hpp:709-742 | marks the element of a label unless it is unknown or marked |
| `HnswIndex.Replay` | src/hnsw/hnsw_scratch/hnsw_core.hpp:1219-1232 | after any run of additions, updates and deletion marks every neighbour list is proper, and a run without marks never lacks candidates |
| `BruteForce.SearchKNN` | src/hnsw/hnsw_scratch/bruteforce.hpp:147-184 | the kept pairs are K of all pairs and no other pair is lexicographically smaller |
| `BruteForce.CloserFirst` | src/hnsw/hnsw_scratch/hnswlib.hpp:87-98 | the same pairs, in ascending order |
| `BruteForce.ExactNearest` | src/hnsw/hnsw_scratch/bruteforce.hpp:147-184 | a list is an ascending list of the K smallest if and only if it is the first K of the sorted list of all pairs |
| `RequestParser.Parse` | request_parser.hpp:31-77 | the result is a command exactly when the data starts with the encoding of that command; a frame that does not fit is a size error and only that is, and a payload that encodes nothing is a bad message |
| `RequestParser.ReadPayload` | request_parser.hpp:52-74 | reading inverts the encoding of every command |
| `RequestParser.AcceptedReencodes` | request_parser.hpp:31-77 | what is accepted encodes again to the bytes of its frame |
| `RequestParser.EncodingIsPrefixFree` | request_parser.hpp:20-30 | no data starts with the encodings of two different commands |

## Left out

- Raft membership change, non-voting members, configuration entries, restart and persistence: every server is a voting member known to all, from the start.
- Raft callbacks, `current_leader`, timeouts and elapsed time: they influence no safety property; timers are arbitrary choices, and a failing callback is not modelled.
- Raft integers are unbounded, so wrap-around of terms and indices is not modelled; an append message carries a copy of its entries.
- `log_poll` and a wrapped ring buffer: the server never polls, so the front of the array log is its first slot.
- RaftNetwork.StateMachineSafety: asks that no delivered empty append deletes an acknowledged entry, because it is false otherwise (`RaftReordering.ReorderingBreaksSafety`); not every run with such a delivery ends in disagreement, so the equivalence is with the invariants (`RaftNetwork.SafeRuns`).
- RaftProgress.FollowerCatchesUp: asks for a run without such deliveries too, because a follower that lost part of what the leader recorded is not repaired in that term (`RaftEffects.LossIsNotRepaired`).
- RaftProgress.ClusterGoesOn: gives the events that lead on from every such state; that timers and the network bring them about is not modelled.
- HashRefinement.Replay: is a finite map only on runs that insert absent keys, because a second insertion of a key is prepended or migrated in an order that hides or reveals the older pair; the multiset contracts of `HashMap` hold for all runs.
- `HMap::clear`, moves, the public `steal_first_node` and the hash function itself, which is an arbitrary function of the key.
- AVL parent pointers, which removal does not maintain, and node locks.
- `ZSet::pop_internal`, which returns a pointer to a freed node, `query`, and the thread pool.
- `BinaryHeap::swap`, `top`, `clear` and `pop_back`; items are ordered by an integer value with the default comparison.
- HnswIndex.Index.AddPoint: when a layer search finds only marked elements while the entry point is not marked, the source reads the last element of an empty vector; the model reports this as `NoCandidates` and promises proper link lists but not a usable entry point after it.
- HnswIndex.Index.constructor: asks for a positive `M`; with zero the source selects no neighbour. The random level is a parameter, so that `1 / log(M)` divides by zero for `M` equal to one is not modelled.
- ZSet.ZSet.UpdateScore: assumes that the node is not one of the objects that make up the hash or the tree, which have other types in the source.
- HNSW file format, raw memory layout, random levels, `searchKnn`, replacement of deleted slots under a new label, index resizing and the inbound-degree assertion of `checkIntegrity`.
- `BruteforceSearch::removePoint` and filtered search; its array of slots is a sequence.
- Rounding and NaN of floating-point distances and scores.
- Server, connections, command dispatch, time-to-live bookkeeping, other caches and the remaining data structures.
