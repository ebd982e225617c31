# A verified model of the Dynamo-style key-value store

The repository is a replicated key-value store in the style of Dynamo: versions carry vector clocks, every key holds
the siblings that are not causally ordered, any node of a key's preference list coordinates reads and writes with
quorums R and W, unreachable replicas get hints at other servers, Merkle trees drive anti-entropy, gossip spreads
membership, a consistent-hash ring places keys, and an evaluation package measures and predicts staleness.

This project models that logic in Dafny 4.11 and proves what holds of it over every input, every interleaving and every
run. Code that computes values is modelled by functions; code that works step by step is a method or a class whose
contract ties it to such a function; protocols are state machines whose messages may be lost, delayed or reordered.
`dafny verify dfyconfig.toml` verifies everything.

Main results:

- **Sibling algebra.** The guarded fold of `mergeObjectsCore` computes exactly the maximal clocks, and is therefore
  commutative, associative, idempotent and indifferent to order and repetition (`SiblingAlgebra`).
- **Store.** Under every interleaving, also between the two critical sections of a merge, every key holds a non-empty,
  timestamp-sorted antichain and is indexed exactly once, in its own bucket (`StoreRuns`, `ClusterStores`). "A replica never
  rolls back" fails when something comes between the two sections of a merge: over every run in between that does
  not itself delete or merge the key, nothing is lost exactly when the objects being merged cover every put on the key
  accepted meanwhile (`LateInstall`). A put is accepted exactly as its base context says (`Replica.PutExactly`).
- **Cluster.** Over all runs with loss, delay and reordering: an acknowledged write is carried by W distinct servers
  ever after (`ClusterSafety.Durability`), and if R and its direct acknowledgements exceed N no later read misses it
  (`ClusterSafety.ReadAfterWrite`). With hints among the acknowledgements a later read may miss it, R + W > N or not;
  from any reachable state on, every read sees a write exactly when fewer than R members of the preference list lack
  it (`LaterReads.WriteSeenExactly`). `QuorumRuns` has a run of either kind.
- **Concurrent writes.** Different coordinators stamp concurrent clocks on one context, and later reads see both writes;
  a replica accepts one write per context, so with 2W > N at most one of two has W direct acknowledgements
  (`WriteRaces`). Which plans a write gets, and how many, is stated at every member of the list (`WritePlans`).
- **Hints.** An accepted replay takes exactly one hint away; a hint whose base its target covers is replayed in vain for
  ever; and exactly when a hint can still go is proved over all runs (`HintReplay`).
- **Anti-entropy.** Serialization is uniquely decodable, summaries are in heap order, the pruned search equals a linear
  scan, one exchange makes two replicas agree on every key the neighbour held, and a second one in the other direction
  on the whole sector; with stale trees an exchange still loses nothing (`Serialization`, `MerkleTree`, `DiffBuckets`,
  `Convergence`).
- **Ring.** Every run of joins and leaves keeps `nodes` the inverse of `sectorMap` and every server in possession of a
  sector, joins keep the sector counts within one of each other, a leave within two, only the share of the newcomer or
  the sectors of the server that left change hands, and the preference-list walk ends within one lap.
- **Gossip.** News only rises, no heartbeat runs ahead of its owner, only a newer heartbeat revives a member, and an
  exchange leaves both sides with the join.
- **Read repair.** The right to read a reply channel is always in exactly one place, and results read plus results
  expected add up to the calls made; once its repair arrives, every replica that answered knows what any of them knew.
- **Evaluation.** A read is delta-regular exactly from an explicit staleness on, so the observed curve is the distribution
  function of that staleness (`DeltaWindows`). In k the measure is monotone when k is 1 or
  the k-th, (k+1)-th and (k+2)-th latest commits are not all at one time, and for all latest commit times with such a
  tie some history breaks it, so the condition is exact (`KTies.KMonotoneExactly`). The consistency
  test is indifferent to the order of what a read returned exactly when that does not hold both an object strictly
  before the write and one at or after it (`Observer.OrderIrrelevantExactly`). Quorum overlap makes every simulated
  trial consistent, in agreement with the closed form.

| file | part of the system |
|---|---|
| `Base`, `VectorClock`, `Siblings`, `SiblingAlgebra`, `SiblingOrder` | clocks, contexts and sibling lists |
| `Replica`, `StoreRuns`, `LateInstall`, `DirtySectors`, `KVServer` | one server's store, index and hints |
| `Serialization`, `MerkleTree`, `DiffBuckets`, `AntiEntropy`, `Convergence`, `SectorExample` | anti-entropy |
| `RingState`, `RingRuns`, `RingMoves`, `HashRing` | the consistent-hash ring |
| `Membership`, `Gossip` | membership |
| `Coordinator`, `Cluster`, `ClusterInvariant`, `ClusterSteps`, `ClusterSafety`, `LaterReads`, `ClusterStores`, `QuorumRuns`, `WritePlans`, `WriteRaces`, `RaceRun`, `HintReplay` | quorum reads and writes, hinted handoff |
| `ReadRepair`, `RepairPipeline` | read repair |
| `Collector`, `Observer`, `DeltaWindows`, `KRegular`, `KWindows`, `KTies`, `ObservedQuorum`, `Simulator`, `Combinatorics` | the evaluation package |

The hypotheses of the run theorems can be met: `QuorumRuns.DirectRunReads`, `RaceRun.RaceExists` and
`SectorExample.ReadyExists` give runs, two servers and a digest that do.

Where the code and its comments disagree the model follows the code: a put whose base context equals a stored sibling's
is rejected with ErrVersion (src/kvsrv/rpc/object.go:23, src/kvsrv/server.go:471-475), although the comment at
src/kvsrv/server.go:450-453 reads as if it were accepted.

## Model

| member | source | states |
|---|---|---|
| VectorClock.Compare | src/kvsrv/vclock/vclock.go:69-94 | for every visiting order of the nodes, the verdict is that of the pointwise order with a missing node counting as 0, early exit included |
| VectorClock.IsInitial | src/kvsrv/vclock/vclock.go:60-67 | true exactly when every version is 0 |
| VectorClock.MergeClocks | src/kvsrv/vclock/vclock.go:96-101 | the result is the pointwise maximum on the union of the nodes |
| VectorClock.JoinIsLeastUpperBound | src/kvsrv/vclock/vclock.go:96-101 | a merged clock is at or after both, and at or before every clock that is |
| VectorClock.LeqTransitive | src/kvsrv/vclock/vclock.go:69-94 | the causal order is transitive across clocks with different node sets |
| VectorClock.SameClockVersions | src/kvsrv/vclock/vclock.go:48-50 | clocks compare as equal exactly when all versions agree |
| VectorClock.IncrementIsAfter | src/kvsrv/vclock/vclock.go:21-23 | an increment is strictly after, and touches no other node |
| Siblings.CanBeAddedTo | src/kvsrv/rpc/object.go:20-28 | true exactly when no listed object is equal to or after the candidate |
| Siblings.AddObject | src/kvsrv/rpc/object.go:32-60 | the loop computes `Add`, for every list, sorted or not |
| Siblings.AddCovers | src/kvsrv/rpc/object.go:32-60 | the new list knows exactly what the old one and the candidate knew: nothing is lost, nothing invented |
| Siblings.AddIsInsert | src/kvsrv/rpc/object.go:32-60 | for an addable candidate the one pass equals dropping what is dominated and inserting by timestamp |
| Siblings.AddMembers | src/kvsrv/rpc/object.go:32-60 | the members are the candidate and the siblings it does not dominate |
| Siblings.AddKeeps | src/kvsrv/rpc/object.go:30-60 | an addable candidate keeps the list an antichain and sorted by time |
| SiblingAlgebra.MergeCovers | src/kvsrv/server.go:672-681 | the fold knows exactly what existing or incoming objects know |
| SiblingAlgebra.MergeKeeps | src/kvsrv/server.go:672-681 | the fold keeps antichain, timestamp order and non-emptiness |
| SiblingAlgebra.MergeMembers | src/kvsrv/server.go:672-681 | the fold returns only objects it was given |
| SiblingAlgebra.MergeIsMaximal | src/kvsrv/server.go:672-681 | the result is an antichain of maximal objects, and every maximal clock of existing and incoming is in it |
| SiblingAlgebra.AntichainDeterminedByCover | src/kvsrv/rpc/object.go:20-60 | two antichains know the same clocks exactly when they hold the same clocks |
| SiblingAlgebra.MergeCommutes | src/kvsrv/server.go:672-681 | merging is commutative on clocks |
| SiblingAlgebra.MergeAssociates | src/kvsrv/server.go:672-681 | merging is associative on clocks |
| SiblingAlgebra.MergeIdempotent | src/kvsrv/server.go:672-681 | merging again changes nothing, not even the order |
| SiblingAlgebra.MergeKnown | src/kvsrv/server.go:683-690 | a merge of known objects leaves the list as it is |
| SiblingAlgebra.MergeOrderIrrelevant | src/kvsrv/server.go:672-681 | order and repetition of the incoming objects do not matter |
| SiblingAlgebra.CoherentClocksAreObjects | src/kvsrv/rpc/object.go:20-60 | where equal clocks mean equal objects, equal clocks mean the same objects |
| SiblingAlgebra.MergeLawsOnObjects | src/kvsrv/server.go:672-681 | under the same condition merging is commutative and associative on whole objects |
| SiblingAlgebra.MergeIsMaximalObjects | src/kvsrv/server.go:672-681 | under the same condition the merge holds exactly the maximal objects of existing and incoming |
| SiblingAlgebra.MergeOrderOnObjects | src/kvsrv/server.go:672-681 | under the same condition order and repetition of the incoming objects do not matter for whole objects either |
| SiblingOrder.ExchangeInto | src/kvsrv/rpc/object.go:118-124 | the inner loop permutes, leaves the places before its own alone, and on an antichain brings the earliest of the rest to its own |
| SiblingOrder.SortObjects | src/kvsrv/rpc/object.go:112-127 | a permutation for every input, and sorted by timestamp on an antichain |
| SiblingOrder.IsOrdered | src/kvsrv/rpc/object.go:96-110 | true exactly when neighbours strictly increase in time and none is causally after the next |
| SiblingOrder.CanonicalUnique | src/kvsrv/merkle.go:51-53 | replicas holding the same siblings in any order serialize them in the same order, if timestamps differ |
| Serialization.Uint64Delimits | src/kvsrv/merkle.go:18-22 | equal streams starting with a 64-bit word start with the same word and go on alike |
| Serialization.StringDelimits | src/kvsrv/merkle.go:24-32 | equal streams starting with a length-prefixed string start with the same string and go on alike |
| Serialization.ClockDelimits | src/kvsrv/merkle.go:39-44 | equal streams starting with a clock start with the same clock map and go on alike |
| Serialization.ObjectDelimits | src/kvsrv/merkle.go:34-45 | equal streams starting with an object agree on value, timestamp and clock, and go on alike |
| Serialization.PairDelimits | src/kvsrv/merkle.go:47-57 | equal streams starting with a key and its siblings agree on both, in canonical order, and go on alike |
| Serialization.LeafBytesDecodable | src/kvsrv/merkle.go:204-222 | equal leaf streams mean equal key lists and, per key, equal values, timestamps and clocks |
| Serialization.LeafIsNotInternal | src/kvsrv/merkle.go:204-251 | no leaf stream equals an internal node's stream, not even with 32 keys |
| Serialization.InternalBytesDecodable | src/kvsrv/merkle.go:224-235 | equal internal streams mean equal child digests |
| Serialization.SortNamesListing | src/kvsrv/vclock/vclock.go:108-127 | sorting names gives the one ascending listing of their set, whatever order they came in |
| MerkleTree.ToVCEntries | src/kvsrv/vclock/vclock.go:108-122 | the nodes come out in the ascending listing, for every map order |
| MerkleTree.WriteObject | src/kvsrv/merkle.go:34-45 | appends exactly the object's bytes to what was hashed |
| MerkleTree.WriteObjects | src/kvsrv/merkle.go:54-56 | appends the objects' bytes in list order |
| MerkleTree.WriteKVPair | src/kvsrv/merkle.go:47-57 | appends key, count and siblings in canonical order |
| MerkleTree.MakeLeaf | src/kvsrv/merkle.go:204-222 | the leaf's digest is that of the bucket's stream, with its keys sorted |
| MerkleTree.PairLevel | src/kvsrv/merkle.go:189-199 | one level up: node j joins nodes 2j and 2j+1, a last single node is capped |
| MerkleTree.BuildFromSnapshot | src/kvsrv/merkle.go:183-202 | the level loop builds the tree of the pairing recursion |
| MerkleTree.ToSummary | src/kvsrv/merkle.go:290-314 | the queue loop lists the digests breadth first, for every tree |
| MerkleTree.HeapOrder | src/kvsrv/merkle.go:183-202 | for 2^k buckets the nodes level by level are in heap order: entry i joins entries 2i+1 and 2i+2, entry B-1+b is bucket b's leaf |
| MerkleTree.BreadthFirstFrom | src/kvsrv/merkle.go:290-314 | a breadth-first walk of a perfect tree visits its heap order |
| MerkleTree.SummaryIsHeapOrder | src/kvsrv/merkle.go:290-314 | so the summary of 2^k buckets is 2B-1 digests in heap order |
| DiffBuckets.FindDiffBuckets | src/kvsrv/anti_entropy.go:120-152 | the search ends, never leaves the arrays, and on consistent summaries returns the linear scan |
| DiffBuckets.DifferenceReached | src/kvsrv/anti_entropy.go:131-143 | pruning on equal digests and on empty leaves hides no listed bucket |
| DiffBuckets.FoundIsScan | src/kvsrv/anti_entropy.go:120-152 | what the search reports up to any position is what the scan lists there |
| DiffBuckets.ScanIsAscending | src/kvsrv/anti_entropy.go:144-148 | the report is ascending, without repeats, and holds exactly the buckets that differ and are not empty here (a single bucket is not tested for emptiness) |
| AntiEntropy.SummariesConsistent | src/kvsrv/merkle.go:183-251 | without collisions among the streams hashed, equal inner digests have equal children and none is the empty leaf's |
| AntiEntropy.ExchangeCovers | src/kvsrv/anti_entropy.go:154-167 | after applying a diff both sides know of each listed key what either knew, and other keys are untouched |
| Convergence.EqualBuckets | src/kvsrv/merkle.go:204-222 | buckets with equal streams hold the same keys with the same clocks |
| Convergence.HeldKey | src/kvsrv/anti_entropy.go:90-118 | a key of the neighbour is in its reply, or both sides already hold the same clocks for it |
| Convergence.RoundConverges | src/kvsrv/anti_entropy.go:56-88 | one exchange leaves both sides with the same maximal clocks for every key the neighbour held in the sector |
| Convergence.ReadyAgain | src/kvsrv/anti_entropy.go:56-88 | an exchange keeps both stores and the sector's shape fit for the next one |
| Convergence.AnyTreesSafe | src/kvsrv/anti_entropy.go:56-167 | with cached trees of any age an exchange keeps both stores good, makes both sides know what either knew of the keys in reported buckets, and touches no other key |
| Convergence.TwoRoundsConverge | src/kvsrv/anti_entropy.go:56-167 | a second exchange in the other direction leaves both sides with the same keys and clocks in the whole sector |
| SectorExample.ReadyExists | src/kvsrv/anti_entropy.go:56-88 | two servers and a digest meet the hypotheses, and one exchange gives one of them the key it lacked |
| Replica.PutCovers | src/kvsrv/server.go:454-488 | after a put the key knows exactly what it knew, and the object if it was accepted |
| Replica.PutExactly | src/kvsrv/server.go:461-487 | a put is accepted exactly when no stored sibling is equal to or after its base and, for a missing key, its base is initial; ErrNoKey is for a missing key and any other base, ErrVersion for a sibling at or after the base; a rejected put changes nothing, an accepted one no other key |
| Replica.PutKeeps | src/kvsrv/server.go:454-488 | a put whose base is at or before its object keeps antichains and index |
| Replica.InstallKeeps | src/kvsrv/server.go:634-653 | installing or deleting a sibling list keeps the index exact |
| Replica.InstallExactly | src/kvsrv/server.go:634-653 | the key holds exactly the installed objects, or is gone for none; other keys and the hints stay, and its sector alone is marked |
| Replica.MergedKeeps | src/kvsrv/server.go:667-698 | a merge keeps antichains and index |
| Replica.MergedStored | src/kvsrv/server.go:667-698 | a merge stores the fold's result, also where it skips the install, and touches no other key |
| Replica.MergedCovers | src/kvsrv/server.go:667-698 | an uninterrupted merge loses nothing and learns exactly what came in |
| Replica.UnhintedExactly | src/kvsrv/hinted_handoff.go:99-116 | the first equivalent hint goes and the others keep their order, the target goes exactly with its last hint, other targets and the store stay; without an equivalent hint nothing changes |
| StoreRuns.StepKeepsStore | src/kvsrv/server.go:634-698 | puts, computed merges, late installs, deletes and hints each keep the store invariant |
| StoreRuns.RunKeepsStore | src/kvsrv/server.go:667-698 | so does every run, whatever comes between a merge's two critical sections |
| StoreRuns.EmptyIsGood | src/kvsrv/server.go:143-148 | a new server satisfies it |
| StoreRuns.UninterruptedMergeKeeps | src/kvsrv/server.go:672-693 | with nothing in between, the two halves are the atomic merge |
| StoreRuns.InterruptedMergeRollsBack | src/kvsrv/server.go:692-693 | with a put in between, an acknowledged write can vanish |
| LateInstall.LateInstallExactly | src/kvsrv/server.go:672-693 | over every run in between that neither deletes the key nor finishes another merge of it, the late install loses nothing exactly when the incoming objects cover every put on the key accepted in that run |
| LateInstall.LateInstallSafe | src/kvsrv/server.go:672-693 | whatever comes in between, deletes and other merges included, nothing is lost if the result of the merge covers all that was put or installed meanwhile |
| DirtySectors.InstallMarks | src/kvsrv/server.go:634-653 | a sector that an install does not mark dirty has the snapshot it had |
| DirtySectors.MergeMarks | src/kvsrv/server.go:667-698 | the same for a merge |
| DirtySectors.PutMarksNothing | src/kvsrv/server.go:479-485 | a put marks no sector, and outdates its own sector's cached tree exactly when it is accepted |
| KVServer.AppendUniqueKey | src/kvsrv/server.go:616-623 | appends exactly when absent |
| KVServer.RemoveKey | src/kvsrv/server.go:625-632 | removes the first occurrence only |
| KVServer.FoldObjects | src/kvsrv/server.go:674-681 | the loop is the fold, and reports a change exactly when some object was new |
| KVServer.FindHint | src/kvsrv/hinted_handoff.go:103-115 | finds a matching hint exactly when there is one, and drops only the first |
| KVServer.KVServer.constructor | src/kvsrv/server.go:111-148 | a new server is empty, with every bucket in place |
| KVServer.KVServer.ReplicaGet | src/kvsrv/server.go:431-448 | returns what is stored, ErrNoKey exactly when nothing is |
| KVServer.KVServer.ReplicaPut | src/kvsrv/server.go:454-488 | new state and error are those of `Put`, accepted exactly when no sibling is at or after the base and a missing key has an initial one; the cached trees stay |
| KVServer.KVServer.InstallObjects | src/kvsrv/server.go:634-653 | new state is that of `Install` |
| KVServer.KVServer.MergeObjects | src/kvsrv/server.go:655-698 | new state is that of `Merged`, and the siblings returned are the merged ones |
| KVServer.KVServer.RepairPut | src/kvsrv/readrepair.go:192-203 | deletes or merges |
| KVServer.KVServer.HintedPut | src/kvsrv/hinted_handoff.go:10-18 | appends the hint and always answers OK |
| KVServer.KVServer.RemoveHint | src/kvsrv/hinted_handoff.go:99-116 | drops the first equivalent hint and no other, and the target with its last hint |
| KVServer.KVServer.SnapshotSector | src/kvsrv/merkle.go:158-176 | the snapshot has the sector's buckets and exactly their keys' siblings |
| KVServer.KVServer.RebuildMerkleTree | src/kvsrv/merkle.go:395-400 | the sector's tree is fresh afterwards, other trees stay |
| KVServer.KVServer.RepairGetDiff | src/kvsrv/anti_entropy.go:90-118 | answers with the keys of the buckets the search finds in the cached tree, which is the diff of the stores if that tree is fresh, or with ErrNoHashValue |
| KVServer.KVServer.CollectInfos | src/kvsrv/anti_entropy.go:107-116 | one entry per key of the listed buckets, in order |
| KVServer.KVServer.ApplyDiff | src/kvsrv/anti_entropy.go:154-167 | both servers end in the states of the exchange |
| KVServer.KVServer.Reconcile | src/kvsrv/anti_entropy.go:56-88 | with trees on both sides, stale or not, both end as the exchange of that reply says, and as `Reconciled` says if the trees are fresh; otherwise nothing changes |
| RingState.RichestIsMax | src/kvsrv/chr/ring.go:151-162 | the node found has the most sectors |
| RingState.RichestCanSpare | src/kvsrv/chr/ring.go:141-146 | while a node is being added, the richest one always has a sector to give and keeps one |
| RingState.AddedIsValid | src/kvsrv/chr/ring.go:129-149 | adding a new server keeps the ring valid exactly when sectors suffice for all |
| RingState.AddedIsBalanced | src/kvsrv/chr/ring.go:129-149 | counts that differ by at most one still do afterwards |
| RingState.CountsNearShare | src/kvsrv/chr/ring.go:133-146 | what is left to each old server is its share or one more |
| RingRuns.MadeIsValid | src/kvsrv/chr/ring.go:55-78 | dealing the sectors round robin gives a balanced ring, which is valid exactly when there is a sector for every server |
| RingRuns.RemovedIsValid | src/kvsrv/chr/ring.go:172-196 | removing keeps the ring valid exactly when it removes a member |
| RingRuns.LeaveCounts | src/kvsrv/chr/ring.go:172-187 | after a leave from a balanced ring the counts differ by at most two, and by at most one exactly when no server that had one sector more than another is also dealt one more |
| RingRuns.RunKeepsValid | src/kvsrv/chr/ring.go:129-196 | over every run of joins and leaves `nodes` stays the inverse of `sectorMap` and every server owns a sector |
| RingRuns.JoinsKeepBalance | src/kvsrv/chr/ring.go:129-149 | over every run of joins the counts stay within one of each other |
| RingMoves.JoinMovesShare | src/kvsrv/chr/ring.go:129-149 | a join moves exactly numSectors / (servers + 1) sectors, all to the new server, and every other sector keeps its owner |
| RingMoves.LeaveMovesOrphans | src/kvsrv/chr/ring.go:172-187 | a leave moves exactly the sectors of the server that left, each to one that stays |
| RingMoves.DealtInTurn | src/kvsrv/chr/ring.go:69-75 | sector t of a new ring belongs to server t modulo their number |
| RingMoves.OrphansInTurn | src/kvsrv/chr/ring.go:178-186 | orphan j goes to remaining server j modulo their number |
| HashRing.LocationInRange | src/kvsrv/chr/ring.go:41-48 | every hash has a sector and a bucket, also where the 64-bit product wraps |
| HashRing.LocationIsShare | src/kvsrv/chr/ring.go:41-48 | the position is the rounded-down share of the ring that the 64-bit product of hash and buckets gives |
| HashRing.LocationMonotone | src/kvsrv/chr/ring.go:41-48 | while the product fits, greater hashes are at the same bucket or further on |
| HashRing.LocationCovers | src/kvsrv/chr/ring.go:41-48 | while the product fits, every bucket of every sector has a hash |
| HashRing.LapMeetsAll | src/kvsrv/chr/ring.go:91-117 | one lap of a valid ring meets every server |
| HashRing.PreferenceListShape | src/kvsrv/chr/ring.go:91-117 | min(N, servers) distinct servers, the sector's owner first |
| HashRing.PreferenceListIsMet | src/kvsrv/chr/ring.go:91-117 | its servers are met in that order going up from the sector one by one, modulo their number, and nobody else's sector is passed on the way |
| HashRing.ConsistentHashRing.constructor | src/kvsrv/chr/ring.go:55-78 | sectors are dealt in turn |
| HashRing.ConsistentHashRing.GetRichestNode | src/kvsrv/chr/ring.go:151-162 | the first node with the most sectors |
| HashRing.ConsistentHashRing.TakeSectorFrom | src/kvsrv/chr/ring.go:165-170 | takes the node's first sector and leaves the rest |
| HashRing.ConsistentHashRing.AddNode | src/kvsrv/chr/ring.go:129-149 | never takes from an empty node; valid exactly when sectors suffice; balance is kept |
| HashRing.ConsistentHashRing.DeleteID | src/kvsrv/chr/ring.go:189-196 | deletes the first occurrence only |
| HashRing.ConsistentHashRing.RemoveNode | src/kvsrv/chr/ring.go:172-187 | orphaned sectors are dealt in turn; valid exactly when a member was removed |
| HashRing.ConsistentHashRing.GetNeighbors | src/kvsrv/chr/ring.go:91-117 | ends within one lap with the preference list and sectors (start + i) mod numSectors for increasing i, each owned by its server, all passed before owned by servers met before |
| Coordinator.CollectGets | src/kvsrv/server.go:220-284 | for every order of arrival and loss the reply is that of the round-by-round fold, and an OK reply is a sorted antichain |
| Coordinator.CollectPuts | src/kvsrv/server.go:382-414 | for every order of arrival and loss the verdict is that of the round-by-round fold |
| Coordinator.GetVerdict | src/kvsrv/server.go:225-284 | whatever the order of arrival, OK and ErrNoKey each need R answers of their kind, and the quorum is not met exactly when neither has them |
| Coordinator.NothingInvented | src/kvsrv/server.go:232-256 | a read returns no version that none of its answers had |
| Coordinator.PutVerdict | src/kvsrv/server.go:386-414 | the verdict depends only on how many results of each kind there are, in the code's order of preference |
| Coordinator.ChooseHandoffNode | src/kvsrv/hinted_handoff.go:63-79 | for every map order, the candidate first in name order, or none exactly when there is no candidate |
| Coordinator.HandoffIsFirst | src/kvsrv/hinted_handoff.go:68-78 | no candidate precedes the one chosen |
| Coordinator.BuildPlans | src/kvsrv/server.go:315-335 | the loop builds the plans of `PlansFor`, which are apart on a preference list; `WritePlans.PlansExactly` says which plans these are |
| Coordinator.PlansAreApart | src/kvsrv/server.go:315-335 | whatever each look at the member table says, no server can stand in for two plans |
| WritePlans.PlansExactly | src/kvsrv/server.go:308-336 | the plans are, in list order, exactly these: each member not dead at its look is written directly; each dead one, if handoff is enabled, through the first member in name order that is not dead, not on the list and not used before, and is passed over if there is none or handoff is off |
| WritePlans.LivingAreDirect | src/kvsrv/server.go:319-336 | a member that is not dead, suspected ones included, is written directly, and with handoff off no plan has a stand-in |
| WritePlans.PlanCount | src/kvsrv/server.go:319-341 | with a steady member table the number of plans is that of the members not dead, plus with handoff the lesser of the dead and of the spare members |
| Membership.RevivalNeedsHeartbeat | src/kvsrv/membership.go:105-111 | between two pieces of news in order, only a newer heartbeat turns Suspect or Dead into Alive |
| Membership.Judged | src/kvsrv/membership.go:131-140 | dead exactly when it was dead or the cleanup timeout has passed, alive exactly when it was alive and no timeout has passed |
| Membership.JoinIsLeast | src/kvsrv/membership.go:90-113 | the join is the least table that knows what both know |
| Membership.JoinLaws | src/kvsrv/membership.go:90-113 | joining is commutative, idempotent and absorbs what is known |
| Membership.MergeIsJoin | src/kvsrv/membership.go:90-113 | merging any list is joining the table of its greatest news |
| Membership.DigestOfElements | src/kvsrv/membership.go:94-112 | order and repetition in the list do not matter |
| Membership.PushPull | src/kvsrv/membership.go:66-88 | an exchange with nothing in between leaves both sides with the join |
| Membership.MergeRaises | src/kvsrv/membership.go:90-113 | a merge never lowers an entry |
| Membership.DetectionRaises | src/kvsrv/membership.go:115-142 | detection never lowers an entry, changes no heartbeat and leaves the own entry alone |
| Membership.DetectionExactly | src/kvsrv/membership.go:115-142 | another member is dead afterwards exactly when it was or has been silent for the cleanup timeout, and otherwise suspected exactly when it was or has been silent for the failure timeout |
| Membership.MemberTable.constructor | src/kvsrv/server.go:150-166 | every node and the server itself, alive at heartbeat 0 |
| Membership.MemberTable.UpdateMemberInfo | src/kvsrv/membership.go:59-64 | replaces heartbeat and status and stamps the entry |
| Membership.MemberTable.BumpLocalHeartbeat | src/kvsrv/membership.go:51-57 | counts up and records the own entry as alive at the new count |
| Membership.MemberTable.MergeMembers | src/kvsrv/membership.go:90-113 | the table becomes the join, and every entry that changed is stamped |
| Membership.MemberTable.DetectMemberFailures | src/kvsrv/membership.go:115-142 | for every map order each other member is judged by its own age, and restamped exactly when its status changed |
| Membership.MemberTable.DetectFailure | src/kvsrv/membership.go:125-140 | the verdict on one member: the cleanup timeout goes before the failure timeout |
| Membership.MemberTable.GetAllMembers | src/kvsrv/membership.go:171-180 | lists exactly the table's entries |
| Membership.MemberTable.GossipSyncMembers | src/kvsrv/membership.go:85-88 | joins the push and answers with the whole table |
| Membership.MemberTable.FilterDeadMembers | src/kvsrv/membership.go:191-204 | keeps the known members that are not dead, in order |
| Gossip.StepKeepsInv | src/kvsrv/membership.go:51-142 | bumps, sends, merges and detections keep the bounds and only raise views |
| Gossip.RunKeepsInv | src/kvsrv/membership.go:51-142 | so does every run, with snapshots lost, late or repeated |
| Gossip.HeartbeatsBounded | src/kvsrv/membership.go:51-57 | no view is ahead of a server's own counter, and a server's own entry is at it |
| Gossip.NoFalseRevival | src/kvsrv/membership.go:105-111 | in a later state a suspected or dead member is alive again only with a strictly greater heartbeat, within its counter |
| Gossip.HeartbeatHeals | src/kvsrv/membership.go:66-113 | a heartbeat that reaches another server overrides whatever anyone believed |
| Gossip.ExchangeConverges | src/kvsrv/membership.go:66-88 | the steps of one uninterrupted exchange give both servers the join and touch no other view |
| ClusterInvariant.PutGrows | src/kvsrv/server.go:454-488 | a put loses nothing anywhere, and an accepted one is held |
| ClusterInvariant.MergeGrows | src/kvsrv/server.go:667-698 | a merge loses nothing anywhere |
| ClusterInvariant.HintGrows | src/kvsrv/hinted_handoff.go:10-18 | a hinted put keeps every hint and adds its own |
| ClusterInvariant.UnhintGrows | src/kvsrv/hinted_handoff.go:99-116 | dropping a hint loses nothing if its target holds the write |
| HintReplay.AcknowledgedReplay | src/kvsrv/hinted_handoff.go:51-59 | a delivered OK lowers the holder's hints for the target by one, the first equivalent one, and changes no other hint and no store |
| HintReplay.AcceptedHintGoes | src/kvsrv/hinted_handoff.go:42-61 | a hint whose write the target would accept goes with one replay |
| HintReplay.BlockedHintStays | src/kvsrv/hinted_handoff.go:42-61 | a hint whose base the target's store covers is kept for ever, in every run, unless the answer to an accepted replay is under way |
| HintReplay.HintGoesExactly | src/kvsrv/hinted_handoff.go:42-61 | a hint kept once with no accepted replay under way leaves its holder in some continuation exactly when the target does not cover its base, nor lacks the key while the base has a value hash and no versions |
| ClusterSteps.PlanExecuted | src/kvsrv/server.go:344-380 | a call that answers OK left the write at its target or in a hint for it |
| ClusterSteps.ReceivedPutOk | src/kvsrv/server.go:386-406 | the success count is the number of OK answers received, and OK is replied only at W of them |
| ClusterSteps.ReceivedGetOk | src/kvsrv/server.go:225-282 | the counts are exact and the collected siblings know what every counted answer knew |
| ClusterSteps.LivingShape | src/kvsrv/membership.go:191-204 | the servers asked are distinct members of the preference list |
| ClusterSteps.LivingExactly | src/kvsrv/membership.go:191-204 | they are, in list order, exactly the members that the view knows as alive or suspected |
| ClusterSteps.StepKeepsInv | src/kvsrv/server.go:183-488 | every step of the cluster keeps the invariant and loses nothing stored or hinted |
| ClusterSafety.RunKeepsInv | src/kvsrv/server.go:183-488 | so does every run |
| ClusterSafety.PutsGoOn | src/kvsrv/server.go:386-415 | a write's arguments and plans never change, and a reply once given stays |
| ClusterSafety.Durability | src/kvsrv/server.go:315-400 | an acknowledged write is, at every later point, at W distinct servers as a sibling that dominates it or as an equivalent hint |
| ClusterSafety.DirectHolders | src/kvsrv/server.go:358-378 | direct acknowledgements come from distinct members of the preference list that hold the write |
| ClusterSafety.QuorumsMeet | src/kvsrv/server.go:194-285 | R equal answers include one from any set of preference-list members that together with R exceeds the list |
| ClusterSafety.ReadAfterWrite | src/kvsrv/server.go:183-285 | if R plus the direct acknowledgements of a write exceed N, as with R + W > N and W of them, a read begun later never answers ErrNoKey, and an OK answer is an antichain with a sibling equal to or after the write |
| ClusterSafety.HeldIsRead | src/kvsrv/server.go:183-285 | when fewer than R members of the preference list lack a version, no read begun from now on misses it |
| LaterReads.MissedByLacking | src/kvsrv/server.go:183-285 | when R members of the preference list lack a version, some continuation has a read that answers ErrNoKey or OK without it; if R of them answer alike, that read alone does |
| LaterReads.SeenExactly | src/kvsrv/server.go:183-285 | every read begun from now on sees a version exactly when fewer than R members of the preference list lack it |
| LaterReads.WriteSeenExactly | src/kvsrv/server.go:183-400 | so for the writes of every run, from every reachable state on |
| ClusterStores.StampedIsWellFormed | src/kvsrv/server.go:305-305 | what the coordinator forwards is strictly after the context the client wrote on; which entry counts up is in `WriteRaces.StampedExactly` |
| ClusterStores.StepKeepsStores | src/kvsrv/server.go:454-488 | every cluster step keeps the store invariant at every server and every hint well formed |
| ClusterStores.RunKeepsStores | src/kvsrv/server.go:292-488 | in every run whose writes reuse the context they were read with, every server's store and index stay exact |
| ClusterStores.NewClusterOk | src/kvsrv/server.go:111-148 | a cluster of new servers satisfies it |
| WriteRaces.StampedExactly | src/kvsrv/server.go:305-305 | the coordinator's version rises by one and no other, timestamp and value hash are the given ones, value, key and base stay |
| WriteRaces.StampedOrder | src/kvsrv/rpc/context.go:55-60 | one stamped clock is at or before another exactly when it is so node by node, each counted up at its own coordinator |
| WriteRaces.StampedApart | src/kvsrv/rpc/context.go:55-60 | on one context two coordinators write concurrent clocks, and one coordinator writes equal ones |
| WriteRaces.BothRead | src/kvsrv/server.go:183-400 | in every run, two writes begun on one context by different coordinators are concurrent, and when R plus the direct acknowledgements of each exceed N a later read sees both |
| WriteRaces.AcceptedOnce | src/kvsrv/server.go:461-477 | in every run, once a replica accepted a write it rejects, in every later state, every write whose base is at or before that write, in particular every other on the same base |
| WriteRaces.OneWriterWins | src/kvsrv/server.go:461-477 | in every run, two writes neither of which was based on the other are acknowledged directly by disjoint sets of servers, so with 2W > N at most one of them has W direct acknowledgements |
| RaceRun.RaceExists | src/kvsrv/server.go:183-400 | a run of two coordinators writing on one context meets the hypotheses, and its read knows both writes |
| QuorumRuns.HintsDoNotCountForReads | src/kvsrv/server.go:346-357 | a run with R + W > N in which a write acknowledged with the help of a hint is followed by a read that finds no key |
| QuorumRuns.WriteAcknowledged | src/kvsrv/server.go:315-400 | its first part: the write is acknowledged by one replica and one hint |
| QuorumRuns.ReadMisses | src/kvsrv/server.go:262-280 | its second part: the replica that was thought dead answers first |
| QuorumRuns.DirectRunReads | src/kvsrv/server.go:183-400 | a run with two direct acknowledgements meets every hypothesis of durability and read-after-write, and its read returns the write |
| ReadRepair.IsSameSiblings | src/kvsrv/readrepair.go:166-183 | true exactly when the lengths agree and each object has an equal in the other list |
| ReadRepair.SameSiblingsBothWays | src/kvsrv/readrepair.go:166-183 | on an antichain the one-sided test is symmetric and means the same clocks |
| ReadRepair.SameSiblingsExactly | src/kvsrv/readrepair.go:166-183 | on antichains it holds exactly when each list has an equal for every object of the other, so a replica that is up to date is not repaired |
| ReadRepair.FindStaleReplicas | src/kvsrv/readrepair.go:148-164 | lists exactly the servers that answered with an error or with other siblings |
| ReadRepair.CanonicalCovers | src/kvsrv/readrepair.go:118-132 | the canonical siblings know exactly what they started from and what the later OK answers know |
| ReadRepair.FinishCoordGetReadRepair | src/kvsrv/readrepair.go:116-145 | merges the remaining answers, and repairs exactly the stale servers, or none if nothing is known |
| ReadRepair.RepairUpToDate | src/kvsrv/readrepair.go:140-203 | once its repair arrives, a server that answered knows all the canonical siblings know |
| ReadRepair.RepairSpreads | src/kvsrv/readrepair.go:116-203 | so whatever one answering server knew, every other one knows after its repair |
| RepairPipeline.StepKeepsOwners | src/kvsrv/readrepair.go:34-113 | every step, with timers firing at any time, moves the right to read between places without copying or losing it |
| RepairPipeline.Ownership | src/kvsrv/readrepair.go:34-113 | in every reachable state a job is owned exactly once or was read to the end; read plus expected results are the calls made; queue and workers keep their bounds |
| RepairPipeline.NoOwnerStarves | src/kvsrv/readrepair.go:119-132 | what an owner still expects is in the channel or still to be sent |
| RepairPipeline.WaitingJob | src/kvsrv/readrepair.go:50-104 | a waiting job is queued when its own timer fires and there is room, drained when a newer one of its key is scheduled or at shutdown, and otherwise waits on |
| RepairPipeline.QueuedJob | src/kvsrv/readrepair.go:34-48 | the queue is first in, first out, to a worker or at shutdown to a drain |
| RepairPipeline.ScheduledIsTaken | src/kvsrv/readrepair.go:34-89 | with an idle worker and an empty queue a scheduled job whose timer fires is taken up |
| RepairPipeline.Pipeline.constructor | src/kvsrv/server.go:139-140 | an empty pipeline |
| RepairPipeline.Pipeline.ScheduleReadRepair | src/kvsrv/readrepair.go:50-67 | does the schedule step: a waiting job of the same key is displaced and drained |
| RepairPipeline.Pipeline.TryFlushReadRepairCoalesceKey | src/kvsrv/readrepair.go:69-89 | does the timer step: queues the job exactly when it still waits and there is room |
| RepairPipeline.Pipeline.DrainReadRepairPipeline | src/kvsrv/readrepair.go:92-113 | every waiting or queued job gets exactly one drain, once |
| Collector.FirstAfter | src/kvsrv_eval/pbsCollector.go:253-255 | the binary search finds the boundary between times not after and after |
| Collector.InsertKeepsOrder | src/kvsrv_eval/pbsCollector.go:253-258 | an insertion there keeps the writes in commit order |
| Collector.Validate | src/kvsrv_eval/pbsCollector.go:31-57 | passes exactly complete traces in order, which have non-negative latencies |
| Collector.PBSCollector.constructor | src/kvsrv_eval/pbsCollector.go:178-183 | an empty collector |
| Collector.PBSCollector.ObserveCompletedWrite | src/kvsrv_eval/pbsCollector.go:238-259 | inserts the write behind all that committed no later and before all that committed later, keeps all others in their order, and stays sorted by commit time |
| Collector.PBSCollector.ObserveCompletedRead | src/kvsrv_eval/pbsCollector.go:261-282 | the same for reads by return time |
| Collector.PBSCollector.ObserveWriteLatency | src/kvsrv_eval/pbsCollector.go:214-224 | records valid traces only, so every sample is non-negative |
| Collector.PBSCollector.ObserveReadLatency | src/kvsrv_eval/pbsCollector.go:226-236 | the same for reads |
| Observer.IsConsistent | src/kvsrv_eval/observer.go:191-202 | the loop's verdict, and on an antichain whether some object is equal to or after the write |
| Observer.ConsistentExactly | src/kvsrv_eval/observer.go:191-202 | on any list: true exactly when the first comparable object is equal to or after the write |
| Observer.OrderIrrelevantExactly | src/kvsrv_eval/observer.go:191-202 | in every order of the objects the verdict is whether the write is covered, if and only if they do not hold both one strictly before the write and one equal to or after it |
| Observer.EarlyExitsHarmless | src/kvsrv_eval/observer.go:191-202 | so on an antichain, in every order, the early exits do not matter |
| Observer.OrderMattersOtherwise | src/kvsrv_eval/observer.go:194-196 | on a list that is no antichain one order is called stale and the other not |
| Observer.IsDeltaRegular | src/kvsrv_eval/observer.go:107-144 | the loop decides `DeltaRegular`; `DeltaWindows.DeltaRegularExactly` says what that is in times |
| DeltaWindows.DeltaRegularExactly | src/kvsrv_eval/observer.go:107-144 | regular exactly when some write of the key consistent with what was returned is during the read, or committed by its start and no more than delta earlier, or is the first of the latest among those that committed more than delta earlier; or there is none of these last and anything was returned |
| DeltaWindows.StalenessIsLeast | src/kvsrv_eval/observer.go:107-144 | a read that returned something is regular exactly for every delta from its staleness on, an explicit least: how long before its start the freshest consistent write had been replaced; one that returned nothing never is |
| DeltaWindows.CurveIsDistribution | src/kvsrv_eval/observer.go:10-23 | the observed curve is the distribution function of the staleness: the share of the reads with at most that much |
| Observer.LatestMoves | src/kvsrv_eval/observer.go:127-132 | as the window widens, the latest write before it stays the same or moves into it |
| Observer.DeltaMonotone | src/kvsrv_eval/observer.go:107-144 | a read regular for one delta is regular for every greater one, for every history |
| Observer.ObserveDeltaP | src/kvsrv_eval/observer.go:10-23 | the share of regular reads, 0 for none |
| Observer.DeltaPMonotone | src/kvsrv_eval/observer.go:10-23 | the share never falls as delta grows |
| KRegular.FindStalest | src/kvsrv_eval/observer.go:165-170 | the first slot with the earliest commit |
| KRegular.IsKRegular | src/kvsrv_eval/observer.go:146-187 | the loops decide: an overlapping or a kept write is consistent |
| KRegular.KeptAreLatest | src/kvsrv_eval/observer.go:160-173 | in commit order, the kept writes are k of the eligible ones, or all, and none that was dropped committed later than a kept one |
| KRegular.KeptAreLast | src/kvsrv_eval/observer.go:160-173 | when the k-th and the (k+1)-th latest eligible writes commit at different times, or there are at most k, exactly the last k are kept |
| KRegular.KMonotone | src/kvsrv_eval/observer.go:146-187 | a read regular for k is regular for every greater k when k is 1, or no tie joins the k-th latest commit with the next, or none joins that one with the one after |
| KWindows.RegularBounds | src/kvsrv_eval/observer.go:146-187 | with any ties: fewer than k committed later is needed, and at most k committed as late, itself included, is enough |
| KWindows.RegularExactly | src/kvsrv_eval/observer.go:146-187 | without a tie between the k-th and the next commit, regular exactly when a consistent write of the key is during the read, or committed by its start with fewer than k committed later |
| KRegular.DistinctIsSteady | src/kvsrv_eval/observer.go:160-173 | distinct commit times meet that condition for every k |
| KTies.TiesBreakMonotonicity | src/kvsrv_eval/observer.go:163-172 | with equal commit times a read can be regular for k = 2 and not for k = 3 |
| KTies.TieBreaks | src/kvsrv_eval/observer.go:163-172 | for every k of at least 2 and all latest times with such a tie there is a history and a read regular for k and not for k + 1 |
| KTies.KMonotoneExactly | src/kvsrv_eval/observer.go:146-187 | given the k + 2 latest commit times: on all histories ending so a read regular for k is regular for every greater k, if and only if k is 1 or the first three of these times are not all equal |
| KRegular.ObserveKP | src/kvsrv_eval/observer.go:25-37 | the share of k-regular reads, 0 for none |
| KWindows.ShareOfRegular | src/kvsrv_eval/observer.go:25-37 | the observed probability is the number of k-regular reads over the number of reads |
| KRegular.KPMonotone | src/kvsrv_eval/observer.go:25-37 | under the same condition for each read, the share never falls as k grows |
| ObservedQuorum.StrictReadsAreConsistent | src/kvsrv_eval/observer.go:189-202 | when R plus the direct acknowledgements of a write exceed N, a later read passes the evaluation's test for it, in whatever order its siblings are listed |
| Simulator.NthSmallest | src/kvsrv_eval/stimulator.go:106-112 | n values are at most the result and fewer than n below it |
| Simulator.NthUnique | src/kvsrv_eval/stimulator.go:106-112 | there is only one such value, however ties are sorted |
| Simulator.FirstKIndices | src/kvsrv_eval/stimulator.go:114-126 | k different indices, none of the others with a smaller value |
| Simulator.SimulateTrial | src/kvsrv_eval/stimulator.go:76-104 | consistent exactly when at one of the first R repliers the write arrived no later than the request of the read sent delta after the write quorum was complete; true whenever the quorums overlap and nothing is negative |
| Simulator.QuorumsOverlap | src/kvsrv_eval/stimulator.go:92-103 | R + W > N makes every trial consistent, whatever the latencies and however ties are broken |
| Simulator.FreshMonotone | src/kvsrv_eval/stimulator.go:97-101 | for fixed samples the verdict only improves with delta |
| Simulator.FreshExactly | src/kvsrv_eval/stimulator.go:97-101 | the verdict of the loop is that statement about arrival times |
| Simulator.MovedDelay | src/kvsrv_eval/stimulator.go:85-103 | moving delay from responses to requests, latencies kept, keeps finish time and first repliers, never makes a consistent trial stale, and makes one consistent only by a first replier's request delay |
| Simulator.ResponsesDoNotMatter | src/kvsrv_eval/stimulator.go:97-101 | for given first repliers the response delays do not enter the verdict |
| Simulator.FreshFromLag | src/kvsrv_eval/stimulator.go:97-101 | a trial is consistent exactly for every delta from an explicit lag on |
| Simulator.SimulateDeltaP | src/kvsrv_eval/stimulator.go:56-73 | counts the trials whose sampled arrivals are fresh and divides by their number; 1 whenever the quorums overlap |
| Simulator.FreshCountMonotone | src/kvsrv_eval/stimulator.go:61-72 | for fixed samples the number of consistent trials never falls as delta grows |
| Simulator.FreshCountIs | src/kvsrv_eval/stimulator.go:61-72 | the count is the number of trials that are consistent |
| Combinatorics.Combination | src/kvsrv_eval/stimulator.go:176-191 | the multiplying loop gives Pascal's number, 0 outside the triangle |
| Combinatorics.ChooseCount | src/kvsrv_eval/stimulator.go:176-191 | that number counts the ways to choose k of n replicas |
| Combinatorics.MissingQuorums | src/kvsrv_eval/stimulator.go:157-157 | the read quorums that miss a write are the choices among the replicas it did not reach |
| Combinatorics.EvaluateKP | src/kvsrv_eval/stimulator.go:156-163 | one minus the k-th power of the share of read quorums that miss the write |
| Combinatorics.KPMonotone | src/kvsrv_eval/stimulator.go:165-174 | it lies between 0 and 1 and never falls as k grows |
| Combinatorics.CertainIffOverlap | src/kvsrv_eval/stimulator.go:156-163 | it is 1 exactly when R + W > N |

## Left out

- Network simulation, RPC plumbing, process control and the tester (`src/labrpc`, `src/labgob`, `src/tester`): a call is modelled as one that may fail, be delayed, or be executed with its reply lost; a call is executed at most once.
- Workload driver, plotting and command lines (`src/kvsrv/pbs_demo.go`, `src/kvsrv_eval/plot.go`, `src/cmd`), including `markMemberStatus`, which can lower a member's status.
- The client's retry loop (`src/kvsrv/client.go`); only the shape of its put arguments is used.
- Crashes, restarts and ring changes while operations are under way: the cluster runs have a fixed ring and servers that keep their memory.
- Clocks, tickers, jitter, random neighbours and random samples are parameters; integers are unbounded (only the 64-bit product in `GetLocation` and the 64-bit words of the serialization are bounded), probabilities are reals.
- SHA-256 and CRC-32 are functions given as parameters; anti-entropy asks that the finitely many streams it hashes do not collide.
- Pointers and aliasing: Go maps and slices are values here, so the in-place reuse of a slice's array by `deleteFromSlice`, `removeKey` and `removeHint`, the parent pointers of Merkle nodes and the visited map of `ToSummary` are not modelled; the channels of `CoordGet` and `CoordPut` are sequences of results.
- The unguarded `MergeObjects` of src/kvsrv/rpc/object.go:64-73, which does not keep an antichain and is not what the servers use.
- The older digest code of src/kvsrv/merkle.go:78-139, which the snapshot-based builders replace.
- `RepairPut` with Delete inside cluster runs: it removes data, so durability excludes it; `StoreRuns` includes it.
- When hints are emptied: replays are steps that may or may not happen; `HintReplay.HintGoesExactly` says which hints can go, not that they do.
- Read repair after an ErrNoKey reply starts from no canonical siblings, so what earlier answers knew may be missing there; `ReadRepair.RepairSpreads` is about jobs whose canonical siblings know the results already collected, as after an OK reply.
- Convergence.RoundConverges: needs cached trees that match the stores, because `ReplicaPut` does not mark its sector dirty (src/kvsrv/server.go:479-485, `DirtySectors.PutMarksNothing`).
- Convergence.TwoRoundsConverge: asks the same of the second round, and that no write comes in between.
- ClusterSafety.Durability: merges are single steps, because the two critical sections of `mergeObjectsCore` allow a roll-back otherwise (`StoreRuns.InterruptedMergeRollsBack`).
- ClusterSafety.ReadAfterWrite: the same, and acknowledgements by hint do not count (`QuorumRuns.HintsDoNotCountForReads`, and `LaterReads.WriteSeenExactly` for what does).
- KRegular.KMonotone: the condition is exact for what the k + 2 latest commit times decide (`KTies.KMonotoneExactly`); on one history with such a tie the outcome further depends on the slots that earlier writes took.
- HashRing.ConsistentHashRing.constructor: asks for a name when there are sectors to deal; without one the code divides by zero.
- KVServer.KVServer.Reconcile: asks that the two summaries have one odd length, which the code takes for granted because all servers use the same number of buckets.
- KVServer.KVServer.RepairGetDiff: asks the same of the summary it is sent.
- KRegular.IsKRegular: asks for k of at least 1; with k = 0 the code would write to a slot that does not exist.
- RingState.AddedIsValid: the empty string is not a server name, because `GetRichestNode` takes it for "none yet".
- RingRuns.RemovedIsValid: asks for at least two servers; removing the last one would divide by zero.
- Collector.PBSCollector.ObserveWriteLatency: `AddWriteSample` and `AddReadSample`, which store samples unchecked, are not modelled.
- `ObserveDeltaPSweep`, `ObserveKPSweep` and their variants, `PredictDeltaPSweep` and `PredictKPSweep` repeat the functions above for a list of parameters; samplers and the validation of configurations would add only easy members.
