# SUPRIME, modelled and verified in Dafny

SUPRIME is a set of small distributed protocols and replicated data types for peer-to-peer swarms.
This project models its hard core in Dafny 4.11 and proves what the protocols promise over every
input, every run and every order of delivery. `dafny verify dfyconfig.toml` checks all of it.

Each component has the same three layers:

* **values** - the state of one node as a datatype or map, and each operation as a function on it;
* **an object** - a class with the source's fields, whose methods update them step by step and are
  proved equal to those functions;
* **runs** - a state machine of many nodes (or of one node and a disk), and theorems about every
  reachable state.

| files | component |
|---|---|
| `RgaTree`, `RgaEdits`, `Rga`, `RgaSwarm` | the RGA sequence CRDT: an insertion tree with tombstones, read by a recursive walk |
| `Plumtree`, `PlumtreeLinks`, `PlumtreeSwarm`, `PlumtreeHandlers`, `PlumtreeRuns`, `PlumtreeSilence`, `PlumtreeCost`, `TreeFront`, `PlumtreeTree`, `PlumtreeFlood`, `PlumtreeWindow` | Plumtree broadcast: completeness, bounded traffic, the tree a first broadcast builds and the cost over it, the delivery window |
| `HyParView`, `HyParViewEffects`, `HyParViewSafety`, `HyParViewTraffic`, `HyParViewWalks` | HyParView membership: safe views, message chains that end |
| `Store`, `StoreSwarm` | the last-writer-wins store and its convergence |
| `BucketText`, `AntiEntropy`, `SwarmExchange` | reconciliation by bucket fingerprints, between any stores and between those of a run |
| `Persistence` | snapshots, write-ahead log and crash recovery |
| `Tasks`, `TaskRounds`, `TaskSwarm` | task claims and execution |
| `KvIndex`, `KvStore` | the database with expiry and secondary indexes |
| `Quorum`, `QuorumService` | quorum writes and reads |
| `VectorClock`, `MvRegister` | vector clocks and the multi-value register |
| `PushSum`, `PushSumPotential` | push-sum aggregation in exact arithmetic |
| `Dedup` | the bounded first-in-first-out message cache |
| `Order`, `Keys`, `Seqs`, `Sums` | shared facts about strings, keys, sequences and sums |

How the outside world appears: the network is a collection of messages in flight that a run
delivers in any order; the disk is a snapshot and a sequence of log lines; a clock is a parameter;
a random choice is either any choice a run makes or a generator passed in as a parameter and
assumed only to draw as many members as asked of the set it is given. Wherever Python walks a set or a dictionary,
the walk's order is arbitrary (an order parameter, or a ghost result of the method that walks). A
handler, a tick or a hook is one atomic step.

## Findings

Seven statements a reader might expect are false of the code; each has a counterexample here and
the condition under which it holds.

* *Recovery yields the last-writer-wins join of the log.* False when a local write stamps below the
  entry it replaces (a peer's clock runs ahead) and a snapshot follows: `LaggingWriteLosesEntry`.
  For a write followed by its snapshot it holds exactly when the write wins or changes nothing:
  `CompactedWriteIsLwwIff`. It holds over all runs whose writes stamp above what they replace
  (`RecoveryIsLwwJoin`), and over all runs without a snapshot (`LogAloneIsLwwJoin`). Over runs with
  any stamps it holds at every point and after every crash exactly when no snapshot drops a newest
  commit: when the file is replaced, each newest commit is the last one for its key or still in the
  log, and when the log is cut it is the last one (`RecoveryIsLwwJoinIff`).
* *A forwarded join always comes to an end.* False for a negative time to live: the code only stops
  at exactly zero (suprime/hyparview.py:168), and three mutual neighbours can then pass it round for
  ever (`RingNeverStops`). Where each view has at least one place there is a bound on what one
  walk can cause if and
  only if its life is not negative or the active view has room for one peer only: `WalkEndsIff`.
  The bound on all deliveries of all runs (`ChainsEnd`) holds in a configuration if and only if the
  same is true of its `arwl`: `ChainsEndIff`, with `JoinOverruns` as the runs that break it.
* *`VectorClock.merge` is the least upper bound.* False for a counter below zero that the other clock
  lacks: `MergeOfNegative`. True exactly when no counter of the left clock is negative without a
  counterpart on the right: `MergeIsLubIff`. Clocks that count are fine.
* *The active view never exceeds its size.* Exactly when that size is at least one, since the code
  adds a peer even to a full view of size zero (`NoRoomOverflows`): `ViewsAlwaysSafeIff`.
* *An index query agrees with a scan.* True over every run of local operations and of quorum writes,
  but read repair and the writes of peers merge an entry without moving index entries
  (suprime/kvstore.py:233, 241): `RepairLeavesIndexStale`, and for one pair of values
  `RepairLeavesYes`. Right after such a merge queries and scan agree exactly when the key has expired
  or its new value files as the old one did: `FoldMatchesIff`. They agree for good, also once the key
  is reaped, exactly when it files as the index entries have it: `FoldMatchesForGoodIff`.
* *What was just put can be read.* A put clears an older expiry and a quorum write does not
  (suprime/kvstore.py:81-83, 177-178): `QuorumPutStaysHidden`. So without a ttl the value shows
  exactly when the key had not expired: `PutShowsIff`.
* *Anti-entropy leaves both stores with everything.* The text hashed for a bucket does not determine
  the entries in it when a node's name holds a bar (suprime/antientropy.py:38-42): two nodes that
  write one key each can then never be brought together, whatever the hash (`BarsKeepApart`). An
  exchange converges, in every order of delivery, if and only if no two different buckets of the
  stores have one fingerprint (`ExchangeConvergesIff`). When neither keys nor origins hold a
  separator, or origins do not and no version is minted twice, that is if and only if the hash has no
  collision among the texts of their buckets (`LegibleExchangeConvergesIff`); so it is in every
  reachable state of a swarm with separator-free names, whatever the keys are
  (`ReachableExchangeConvergesIff`).

A Plumtree node that has not yet looked at its neighbours keeps what it receives to itself
(`UnsyncedNodeForwardsNothing`), which is why completeness starts from synced nodes.

## Model

| member | source | states |
|---|---|---|
| `RgaTree.WalkExtends` | suprime/rga.py:90-101 | a replica that only gained elements walks what it had before in the same order, tombstones included |
| `RgaTree.WalkPermutes` | suprime/rga.py:90-101 | the recursive walk terminates and lists each element exactly once |
| `RgaTree.DescendingUnique` | suprime/rga.py:83-86 | a set of sibling ids has one descending order, so the child lists are determined by the elements |
| `RgaTree.SiblingsDisjoint` | suprime/rga.py:93-98 | the subtrees of two siblings share no element |
| `RgaTree.GreaterSiblingFirst` | suprime/rga.py:83-98 | of two elements inserted behind the same one the later counter is read first and, for concurrent inserts of equal counter, the greater node |
| `RgaTree.ParentFirst` | suprime/rga.py:93-98 | an element is read behind the one it was inserted after |
| `RgaEdits.FreshSortsFirst` | suprime/rga.py:53-55 | a newly minted id is greater than every id known, so the new element comes first among its siblings |
| `RgaEdits.InsertRefinesList` | suprime/rga.py:57-61 | inserting at visible position i splices the value into the text exactly there, even among tombstones |
| `RgaEdits.DeleteRefinesList` | suprime/rga.py:66-73 | deleting removes exactly position i of the text and disturbs nothing else |
| `RgaEdits.TombstoneKeepsWalk` | suprime/rga.py:72 | marking an element deleted leaves the walk as it was |
| `RgaEdits.MergeCommutes` | suprime/rga.py:116-128 | merging is commutative on replicas that agree on shared insertions |
| `RgaEdits.MergeAssociates` | suprime/rga.py:116-128 | merging is associative |
| `RgaEdits.MergeIdempotent` | suprime/rga.py:116-128 | merging again changes nothing |
| `RgaEdits.MergedGrounded` | suprime/rga.py:116-128 | a merge of two trees is a tree: every predecessor is the root or a present smaller id |
| `RgaEdits.MergeNeverReorders` | suprime/rga.py:116-128 | each side of a merge appears in the merged walk in its own order, tombstones included |
| `RgaEdits.MergedIntoEmpty` | suprime/rga.py:138-144 | a digest applied to an empty replica reproduces the document |
| `Rga.ChildListIsKids` | suprime/rga.py:48-49 | the stored child lists are exactly the descending grouping of the elements by predecessor |
| `Rga.Replica.NextId` | suprime/rga.py:53-55 | the counter bounds every known id, so the minted id is new and above them all |
| `Rga.Replica.ApplyInsert` | suprime/rga.py:77-88 | the in-place append and reverse sort keep the child lists a descending grouping, and raise the counter past the id |
| `Rga.Replica.WalkFrom` | suprime/rga.py:93-98 | the nested walk appends the visible ids below an element, in order |
| `Rga.Replica.VisibleIds` | suprime/rga.py:90-101 | the visible ids are the live part of the full walk |
| `Rga.Replica.ToList` | suprime/rga.py:105-106 | the list read back is the text of the document |
| `Rga.Replica.Insert` | suprime/rga.py:57-61 | the text becomes L[..i]+[v]+L[i..]; an index past the end fails and changes nothing |
| `Rga.Replica.Append` | suprime/rga.py:63-64 | the value ends up last |
| `Rga.Replica.Delete` | suprime/rga.py:66-73 | the text loses exactly position i; an index out of range changes nothing |
| `Rga.Replica.MergeOne` | suprime/rga.py:120-127 | one element taken over, with the flag saying whether anything changed |
| `Rga.Replica.Merge` | suprime/rga.py:116-128 | the elements become the merge of both sides, the counter the largest seen, and the result is True iff something changed |
| `Rga.Replica.Digest` | suprime/rga.py:130-136 | the records read back to the same elements |
| `Rga.Replica.ApplyDigest` | suprime/rga.py:138-144 | applying records is merging with the replica they describe |
| `RgaSwarm.StepConsistent` | suprime/rga.py:43-144 | every edit, publication and receipt keeps ids unique, counters bounding and all documents in agreement |
| `RgaSwarm.ReachableMergesConverge` | suprime/rga.py:116-128 | any two reachable replicas merge to one document either way round, and neither is reordered |
| `RgaSwarm.SameUpdatesSameText` | suprime/rga.py:105-128 | replicas that know the same insertions and deletions show the same text, however the digests arrived |
| `RgaSwarm.HistoryNeverReorders` | suprime/rga.py:77-128 | over any continuation of a run a replica keeps the order of what it had |
| `RgaSwarm.EventShows` | suprime/rga.py:57-140 | each event of a run is what the call of the replica leaves at its node, and concerns no other |
| `RgaSwarm.InsertionShows` | suprime/rga.py:57-61 | an insertion event splices the value into the text its node shows |
| `RgaSwarm.DeletionShows` | suprime/rga.py:66-73 | a deletion event takes exactly one position out of it |
| `RgaSwarm.ReceiptShows` | suprime/rga.py:116-140 | a receipt leaves everything replica and digest had, with the deletions of both |
| `Plumtree.PlumtreeBroadcast.Record` | suprime/plumtree.py:89-94 | the message is cached and the oldest one evicted beyond the cap |
| `Plumtree.PlumtreeBroadcast.SyncNeighbors` | suprime/plumtree.py:112-120 | new neighbours become eager, departed ones leave both sets, all others stay as they were |
| `Plumtree.PlumtreeBroadcast.EagerPush` | suprime/plumtree.py:124-128 | one full copy to each eager peer except the sender |
| `Plumtree.PlumtreeBroadcast.LazyPush` | suprime/plumtree.py:130-134 | one announcement queued for each lazy peer except the sender |
| `Plumtree.PlumtreeBroadcast.BroadcastMessage` | suprime/plumtree.py:96-104 | a broadcast records, delivers, pushes and queues |
| `Plumtree.PlumtreeBroadcast.HandleGossip` | suprime/plumtree.py:138-155 | a first copy is taken over and passed on; a repeated one prunes the link |
| `Plumtree.PlumtreeBroadcast.HandlePrune` | suprime/plumtree.py:157-159 | the link becomes lazy |
| `Plumtree.PlumtreeBroadcast.HandleIhave` | suprime/plumtree.py:161-167 | each unknown id is waited for, with the sender noted once as a candidate |
| `Plumtree.PlumtreeBroadcast.HandleGraft` | suprime/plumtree.py:169-176 | the link becomes eager and the message is sent if held |
| `Plumtree.PlumtreeBroadcast.GatherQueue` | suprime/plumtree.py:185-187 | the queue is grouped per peer, losing no announcement and keeping their order |
| `Plumtree.PlumtreeBroadcast.FlushQueue` | suprime/plumtree.py:184-190 | one batch per peer, peers in the order first queued |
| `Plumtree.PlumtreeBroadcast.RepairOne` | suprime/plumtree.py:193-205 | one missing message waits another round, or grafts its next candidate when due |
| `Plumtree.PlumtreeBroadcast.RepairBranches` | suprime/plumtree.py:192-205 | the repair loop over the missing messages, in the order it walks them |
| `Plumtree.PlumtreeBroadcast.OnTick` | suprime/plumtree.py:180-205 | a tick syncs, flushes and repairs |
| `PlumtreeHandlers.PushesExact` | suprime/plumtree.py:124-128 | what is pushed is exactly one copy per peer walked and not skipped |
| `PlumtreeLinks.SyncFollows` | suprime/plumtree.py:112-122 | a neighbour seen for the first time becomes eager, one that left is dropped, all others stay as they were |
| `PlumtreeLinks.FirstBroadcastReaches` | suprime/plumtree.py:96-136 | the first broadcast of a new node sends exactly one full copy to each neighbour and queues nothing |
| `PlumtreeLinks.GraftLinks` | suprime/plumtree.py:169-178 | a graft makes the link eager and is answered with the message, if held, and nothing else |
| `PlumtreeLinks.PruneLinks` | suprime/plumtree.py:157-159 | a prune makes the link lazy and touches no other |
| `PlumtreeLinks.FirstCopyLinks` | suprime/plumtree.py:138-150 | the sender of a first copy is eager afterwards and the message is delivered and missed no more |
| `PlumtreeLinks.HeardWaits` | suprime/plumtree.py:161-167 | an announcement starts the wait at zero and puts its sender last among the candidates, once |
| `PlumtreeLinks.GraftWhenDue` | suprime/plumtree.py:191-205 | no graft before the timeout or without a candidate; when due it goes to the first candidate, whose link becomes eager, and the wait starts again |
| `PlumtreeLinks.NoGraftForReceived` | suprime/plumtree.py:191-205 | a message that came in meanwhile is waited for no more and nobody is asked for it |
| `PlumtreeLinks.QueuedIdsConcat` | suprime/plumtree.py:183-189 | announcements for a peer come in the order they were queued |
| `PlumtreeLinks.TickFollows` | suprime/plumtree.py:180-205 | a tick follows the neighbours there are, except for peers it grafts, and leaves nothing queued |
| `PlumtreeHandlers.FlushedExact` | suprime/plumtree.py:183-190 | the flush announces everything queued, to whom it was queued, and nothing else |
| `PlumtreeHandlers.NewGossipFaithful` | suprime/plumtree.py:142-150 | a first copy: every neighbour but the sender is told or queued, nothing known before is lost |
| `PlumtreeHandlers.BroadcastFaithful` | suprime/plumtree.py:96-104 | a broadcast tells or queues every neighbour |
| `PlumtreeHandlers.RepeatFaithful` | suprime/plumtree.py:151-155 | a repeated copy changes only the link it came over, which becomes lazy, and a prune goes back |
| `PlumtreeHandlers.PruneFaithful` | suprime/plumtree.py:157-159 | a prune loses no announcement and no candidate |
| `PlumtreeHandlers.GraftFaithful` | suprime/plumtree.py:169-176 | a graft for a held message is always answered with it |
| `PlumtreeHandlers.IhaveFaithful` | suprime/plumtree.py:161-167 | every announced id is held already or has the sender as a candidate afterwards |
| `PlumtreeHandlers.RepairedAllFaithful` | suprime/plumtree.py:192-205 | the repair loop drops no candidate without sending it a graft, and grafts only candidates |
| `PlumtreeHandlers.TickFaithful` | suprime/plumtree.py:180-205 | a tick loses nothing: queued announcements go out, dropped candidates are grafted |
| `PlumtreeSwarm.MoveKeeps` | suprime/plumtree.py:96-205 | a faithful step of one node keeps the whole invariant, that no neighbour is forgotten included |
| `PlumtreeSwarm.CoverStays` | suprime/plumtree.py:124-205 | a neighbour that is covered stays covered, whichever way it is covered, through any step |
| `PlumtreeSwarm.CoverStarts` | suprime/plumtree.py:124-150 | a node that newly holds a message covers every neighbour at once |
| `PlumtreeRuns.StepKeeps` | suprime/plumtree.py:96-205 | every broadcast, delivery and tick keeps the invariant |
| `PlumtreeRuns.RunKeeps` | suprime/plumtree.py:96-205 | the invariant holds in every reachable state |
| `PlumtreeRuns.NoNeighbourForgotten` | suprime/plumtree.py:96-205 | if n has m, each neighbour p has m, or a copy, announcement or graft for it is in flight between them, or it is queued at n, or n is a candidate at p |
| `PlumtreeRuns.EveryBroadcastReachesAll` | suprime/plumtree.py:96-205 | when a connected swarm has gone quiet every node has delivered every broadcast exactly once, with its payload |
| `PlumtreeRuns.NeverDeliveredTwice` | suprime/plumtree.py:138-155 | at no point of a run has a node delivered a broadcast twice or one nobody sent |
| `PlumtreeRuns.UnsyncedNodeForwardsNothing` | suprime/plumtree.py:138-150 | a node with no links yet passes nothing on |
| `PlumtreeSilence.SilentTick` | suprime/plumtree.py:180-205 | a tick that sends nothing had an empty queue, and everything with a candidate is still short of its timeout |
| `PlumtreeSilence.PatienceRunsOut` | suprime/plumtree.py:193-205 | a node with a candidate for a missing message grafts within the timeout |
| `PlumtreeSilence.SilenceMeansComplete` | suprime/plumtree.py:96-205 | an empty network and a timeout of silent ticks everywhere show that every broadcast is everywhere |
| `PlumtreeCost.HandledWeight` | suprime/plumtree.py:138-176 | each delivery uses up weight, whatever it sets off |
| `PlumtreeCost.TickWeight` | suprime/plumtree.py:180-205 | a tick pays for all it sends out of the weight of the node |
| `PlumtreeCost.IssueCost` | suprime/plumtree.py:96-104 | a broadcast adds at most seven units for every directed link of the overlay |
| `PlumtreeCost.StepPays` | suprime/plumtree.py:96-205 | every step pays for itself out of the weight |
| `PlumtreeCost.TrafficBounded` | suprime/plumtree.py:96-205 | over any run all deliveries and everything ticks send are bounded by a constant of the overlay per broadcast |
| `TreeFront.OnwardIsOutward` | suprime/plumtree.py:124-128 | a node just reached sends on only to nodes that lack the message |
| `TreeFront.OnwardIsNew` | suprime/plumtree.py:124-128 | and to none a copy is already heading for |
| `TreeFront.FrontAdvances` | suprime/plumtree.py:138-150 | a delivery moves the front: the copies in flight stay exactly the links out of the reached part |
| `TreeFront.FrontEnds` | suprime/plumtree.py:138-150 | with no copy in flight the reached part is the whole tree |
| `PlumtreeTree.CopyIsFirst` | suprime/plumtree.py:142-155 | over a tree a copy always meets a node that lacks the message, so nothing is pruned |
| `PlumtreeTree.FirstCopyKeepsLinks` | suprime/plumtree.py:143-150 | the first copy comes in over an eager link, so no link changes |
| `PlumtreeTree.TreeStep` | suprime/plumtree.py:96-205 | every step without a graft keeps the tree, the links and the count |
| `PlumtreeTree.TreeBroadcastCost` | suprime/plumtree.py:124-159 | before any graft: no prune, no link change, and one copy sent per node reached beyond the first and per copy in flight |
| `PlumtreeTree.TreeBroadcastTotal` | suprime/plumtree.py:124-159 | a finished broadcast over N nodes took exactly N-1 copies and reached all, in any delivery order |
| `PlumtreeFlood.CopyComing` | suprime/plumtree.py:124-155 | during the first broadcast a copy is on its way from each node that has it to each neighbour that lacks it |
| `PlumtreeFlood.FirstFloods` | suprime/plumtree.py:138-150 | a first copy hangs its receiver below its sender in a tree, and every eager link outside the tree between two that have the message has the copy in flight that will make it lazy |
| `PlumtreeFlood.LazyFloods` | suprime/plumtree.py:151-159 | a repeated copy or a prune only ever makes a link outside the tree lazy |
| `PlumtreeFlood.BeatFloods` | suprime/plumtree.py:180-205 | during the first broadcast a tick sends nothing and changes nothing |
| `PlumtreeFlood.FloodBuildsTree` | suprime/plumtree.py:96-205 | from all links eager, once everything one broadcast set off is delivered, in any order and with any ticks, every node has it and the eager links are a spanning tree |
| `PlumtreeFlood.AfterFloodOneCopyEach` | suprime/plumtree.py:96-159 | after that, until a graft, each broadcast costs N-1 copies and reaches all, with nothing assumed of the links |
| `PlumtreeWindow.DeliveryWindow` | suprime/plumtree.py:89-155 | with evictions: the cache is the window of the last cap deliveries, which decides exactly what is delivered |
| `PlumtreeWindow.RedeliveredOnlyAfterCap` | suprime/plumtree.py:89-155 | an id is delivered again only after at least cap other deliveries |
| `HyParView.HyParViewNode.Record` | suprime/hyparview.py:87-89 | an address is kept unless it is empty, nameless or the own one |
| `HyParView.HyParViewNode.Send` | suprime/hyparview.py:94-100 | a packet goes to the address on file, or nowhere |
| `HyParView.HyParViewNode.PutPassive` | suprime/hyparview.py:130-137 | a known peer in neither view joins the passive one, evicting a random member when full |
| `HyParView.HyParViewNode.DropActive` | suprime/hyparview.py:122-128 | a random active peer is demoted to passive and told so |
| `HyParView.HyParViewNode.PutActive` | suprime/hyparview.py:112-120 | a known peer becomes active, making room by dropping another when full |
| `HyParView.HyParViewNode.HandleJoin` | suprime/hyparview.py:139-161 | the newcomer is added, linked back and spread to the other active peers |
| `HyParView.HyParViewNode.HandleForwardJoin` | suprime/hyparview.py:163-185 | the random walk of a join: add and link at its end, keep as passive at prwl, else pass on |
| `HyParView.HyParViewNode.HandleNeighbor` | suprime/hyparview.py:189-200 | a neighbour request is accepted with priority or with room, and answered |
| `HyParView.HyParViewNode.HandleNeighborReply` | suprime/hyparview.py:202-208 | an accepted peer becomes active, a refusing one passive |
| `HyParView.HyParViewNode.HandleDisconnect` | suprime/hyparview.py:210-214 | a leaving active peer is demoted |
| `HyParView.HyParViewNode.IntegrateNodes` | suprime/hyparview.py:257-262 | sampled peers are recorded and put in the passive view one by one, never the node itself |
| `HyParView.HyParViewNode.Sample` | suprime/hyparview.py:264-268 | a sample of known peers with their addresses |
| `HyParView.HyParViewNode.StartShuffle` | suprime/hyparview.py:218-229 | a shuffle goes to one active peer |
| `HyParView.HyParViewNode.HandleShuffle` | suprime/hyparview.py:231-251 | a shuffle is passed on while it lives, else answered; either way its nodes are integrated |
| `HyParView.HyParViewNode.HandleShuffleReply` | suprime/hyparview.py:253-255 | the reply is integrated |
| `HyParView.HyParViewNode.RepairViews` | suprime/hyparview.py:272-284 | the repair loop terminates and promotes passive peers one by one |
| `HyParView.HyParViewNode.OnTick` | suprime/hyparview.py:272-285 | repair, then shuffle |
| `HyParView.HyParViewNode.DropDead` | suprime/hyparview.py:287-294 | only living peers remain in the views |
| `HyParViewSafety.AddPassiveSafe` | suprime/hyparview.py:130-137 | the bounds and disjointness hold after putting a peer in the passive view, and the peer is there |
| `HyParViewSafety.DropActiveSafe` | suprime/hyparview.py:122-128 | dropping makes room for one, and the victim is demoted and informed |
| `HyParViewSafety.AddActiveSafe` | suprime/hyparview.py:112-120 | a known peer is active afterwards, at most one other has left, and it is passive now and was told |
| `HyParViewSafety.HandledSafe` | suprime/hyparview.py:139-255 | every handler keeps the views safe, whatever the message says |
| `HyParViewSafety.RepairFills` | suprime/hyparview.py:272-284 | repair only moves peers from passive to active, ends with a full view or nobody left to ask, and asks each peer moved |
| `HyParViewSafety.PruneSafe` | suprime/hyparview.py:287-294 | pruning keeps the views safe and leaves only living peers |
| `HyParViewSafety.ViewsAlwaysSafe` | suprime/hyparview.py:87-294 | in every reachable state both views are within their sizes, disjoint, without the node itself, and everyone in them has an address |
| `HyParViewSafety.JoinLinksAndSpreads` | suprime/hyparview.py:139-161 | a newcomer is active, is asked to link back, and every other active peer is told of it |
| `HyParViewSafety.ReplyIsTruthful` | suprime/hyparview.py:189-200 | the answer says accepted exactly under the accept condition, and then the peer is active |
| `HyParViewEffects.RecordedFiles` | suprime/hyparview.py:87-89 | a named peer is filed under its latest address, and nobody else is touched |
| `HyParViewEffects.PutEvictsAtMostOne` | suprime/hyparview.py:130-137 | joining the passive view pushes out at most one peer, and only from a full view |
| `HyParViewEffects.RoomCostsNobody` | suprime/hyparview.py:112-120 | while there is room becoming active costs nobody the place |
| `HyParViewEffects.AcceptedIsActive` | suprime/hyparview.py:202-206 | a peer that accepted is active afterwards |
| `HyParViewEffects.RefusedIsPassive` | suprime/hyparview.py:202-208 | a peer that refused becomes passive unless it is active, and nothing else happens |
| `HyParViewEffects.DisconnectedLeaves` | suprime/hyparview.py:210-214 | a peer that disconnects leaves the active view for the passive one |
| `HyParViewEffects.LivingStay` | suprime/hyparview.py:287-294 | pruning leaves the living where they are |
| `HyParViewEffects.WalkEndsInLink` | suprime/hyparview.py:163-174 | where the walk ends the newcomer is active and asked with priority to link back |
| `HyParViewEffects.WalkPassesOn` | suprime/hyparview.py:175-187 | else it goes to one other active peer with one less to live, and the newcomer is kept as passive exactly at prwl |
| `HyParViewEffects.WalkStops` | suprime/hyparview.py:175-187 | with nowhere to go the newcomer becomes active here, and only a peer dropped for it is told |
| `HyParViewEffects.SampleShowsPeers` | suprime/hyparview.py:264-270 | a sample shows four known peers under their addresses, or all when there are no more |
| `HyParViewEffects.ShuffleStarts` | suprime/hyparview.py:218-229 | one active peer gets a shuffle with the full life and the sample |
| `HyParViewEffects.ShufflePassesOrAnswers` | suprime/hyparview.py:231-251 | a shuffle with life left goes on to a peer it did not come from, else its origin is answered; either way its nodes are taken in |
| `HyParViewEffects.IntegratedAll` | suprime/hyparview.py:257-262 | while the passive view has room every named peer of a list is in a view afterwards and nobody has left |
| `HyParViewEffects.ReplyTakenIn` | suprime/hyparview.py:253-262 | the answer to a shuffle is taken in and its sender filed |
| `HyParViewEffects.AsksWithPriorityWhenAlone` | suprime/hyparview.py:272-284 | only a node without an active peer asks with priority |
| `HyParViewEffects.TickRepairsThenShuffles` | suprime/hyparview.py:272-286 | a tick fills the active view and then starts a shuffle |
| `HyParViewSafety.NoRoomOverflows` | suprime/hyparview.py:112-120 | without room for one active peer a single join breaks the bound |
| `HyParViewSafety.ViewsAlwaysSafeIff` | suprime/hyparview.py:87-294 | the views are safe in every reachable state exactly when the active size is at least one |
| `HyParViewTraffic.HandledWeight` | suprime/hyparview.py:139-255 | what a delivery sets off weighs less than the packet delivered |
| `HyParViewTraffic.HandledAlive` | suprime/hyparview.py:163-185 | live walks cause only live walks |
| `HyParViewWalks.DeadWalkGoesOn` | suprime/hyparview.py:168-183 | between two neighbours a walk with a negative life is sent on to the other with one less, whatever is drawn |
| `HyParViewWalks.LiveWalkEnds` | suprime/hyparview.py:163-185 | a walk whose life is not negative, or with an active size of one, causes at most 6 deliveries more than its life |
| `HyParViewWalks.RingNeverStops` | suprime/hyparview.py:163-183 | a walk below zero goes round three mutual neighbours as often as one likes |
| `HyParViewWalks.WalkEndsIff` | suprime/hyparview.py:163-185 | where each view has at least one place: there is a bound on what a walk can cause if and only if its life is not negative or the active size is one |
| `HyParViewWalks.JoinOverruns` | suprime/hyparview.py:139-183 | with a negative arwl and room for two, one join has more deliveries than any budget |
| `HyParViewWalks.ChainsEndIff` | suprime/hyparview.py:139-285 | where each view has at least one place: all runs of all settled overlays keep within the budget if and only if arwl is not negative or the active size is one |
| `HyParViewTraffic.TickWeight` | suprime/hyparview.py:272-285 | what a tick sets off is bounded by the sizes |
| `HyParViewTraffic.StepPays` | suprime/hyparview.py:104-294 | deliveries use up weight that only joins and ticks supply |
| `HyParViewTraffic.ChainsEnd` | suprime/hyparview.py:139-285 | in any run there are no more deliveries than the joins and ticks allow, and all views stay safe |
| `Store.JoinCommutes` | suprime/store.py:122-149 | merging stores is commutative where equal versions mean equal entries |
| `Store.JoinAssociates` | suprime/store.py:122-149 | merging stores is associative |
| `Store.JoinIdempotent` | suprime/store.py:122-149 | merging a store with itself changes nothing |
| `Store.MergeEntryIsJoin` | suprime/store.py:122-133 | merging one entry is joining a store that holds only it |
| `Store.JoinAllIsJoin` | suprime/store.py:135-149 | a sequence of merges yields, key by key, a newest entry among all the stores merged |
| `Store.JoinUnique` | suprime/store.py:135-149 | the join of a family depends only on which stores are in it |
| `Store.SameDigestsSameStore` | suprime/store.py:135-149 | the same digests in any order and with any repetitions lead to the same data |
| `Store.DistributedStore.NextVersion` | suprime/store.py:73-80 | the new version is above every one this node produced, and not behind its clock |
| `Store.DistributedStore.Set` | suprime/store.py:82-88 | the entry written carries a fresh version and replaces whatever was there |
| `Store.DistributedStore.Delete` | suprime/store.py:90-98 | an existing key gets a tombstone with a fresh version; a missing one stays missing |
| `Store.DistributedStore.MergeOne` | suprime/store.py:122-133 | a remote entry is taken over exactly when it is newer, with True iff the data changed |
| `Store.DistributedStore.ApplyDigest` | suprime/store.py:146-149 | the data becomes the join with the digest in whatever order its keys come, with True iff the data changed |
| `Store.DistributedStore.CollectGarbage` | suprime/store.py:159-175 | exactly the tombstones old enough go, and are counted |
| `StoreSwarm.StepConsistent` | suprime/store.py:73-149 | every write, publication and merge keeps versions unique and every entry traceable to the write that made it |
| `StoreSwarm.NoVersionMintedTwice` | suprime/store.py:73-98 | over a whole run no two writes carry the same version |
| `StoreSwarm.SourcedCoherent` | suprime/store.py:73-149 | equal versions therefore mean the same entry at the same key |
| `StoreSwarm.ReplicasConverge` | suprime/store.py:122-149 | replicas with the same data that merge the same digests in any order, with repetitions, hold the same data |
| `StoreSwarm.ReceiveAll` | suprime/store.py:135-149 | receiving digests one after the other is the fold of merges, and never moves the stamp bound of the receiver |
| `StoreSwarm.StepIsCall` | suprime/store.py:82-177 | each step of a run is what the call of the store object leaves at its node |
| `StoreSwarm.CallsShow` | suprime/store.py:82-98 | a set entry is live, a deleted one a tombstone above everything its node produced, and other keys stay |
| `Store.TieGoesToGreaterOrigin` | suprime/store.py:29-30 | a later stamp wins, and of two equal stamps the one of the greater origin, whichever way they meet |
| `Store.KeptExact` | suprime/store.py:159-177 | every live entry and young tombstone stays with its entry, every old tombstone goes |
| `BucketText.AnyListing` | suprime/antientropy.py:34-42 | the entries of a bucket give one text in whatever order the store lists them |
| `BucketText.TextInjective` | suprime/antientropy.py:38-42 | without separators in keys and origins the text of a bucket determines its items |
| `BucketText.SignedTextInjective` | suprime/antientropy.py:36-42 | where no version is minted twice and origins hold no separator it does so whatever the keys are |
| `BucketText.SpellingExists` | suprime/antientropy.py:38-39 | for any items there is a spelling of their stamps that tells them apart |
| `BucketText.SeparatorsCollide` | suprime/antientropy.py:38-42 | with a newline in a key one entry can have the text of two |
| `BucketText.BarsCollide` | suprime/antientropy.py:38-42 | with a bar in an origin two entries at different keys, under versions of different nodes, can have one text |
| `AntiEntropy.PrintSeparatesIff` | suprime/antientropy.py:38-43 | the hashed texts tell the buckets of legible stores apart exactly when the hash has no collision among them |
| `AntiEntropy.DifferingExact` | suprime/antientropy.py:30-55 | a bucket is reported exactly when the stores differ in it and its fingerprint shows it |
| `AntiEntropy.SelectedSuffices` | suprime/antientropy.py:58-65 | taking over only the differing buckets is as good as taking over everything |
| `AntiEntropy.JoinedSuffices` | suprime/antientropy.py:58-65 | also when the sender has already merged |
| `AntiEntropy.NoMismatchNoDifference` | suprime/antientropy.py:104-105 | no differing bucket means equal stores |
| `AntiEntropy.DiffBuckets` | suprime/antientropy.py:46-55 | the mismatch is found in two passes, one over each side |
| `AntiEntropy.Service.BucketHashes` | suprime/antientropy.py:30-43 | each non-empty bucket gets the fingerprint of its keys, versions and deletion marks |
| `AntiEntropy.Service.Tick` | suprime/antientropy.py:88-98 | the fingerprints of the whole store go to one live peer, or nothing is sent |
| `AntiEntropy.Service.OnDigest` | suprime/antientropy.py:100-110 | nothing is sent when all buckets match, else the differing entries and a request for theirs |
| `AntiEntropy.Service.OnPull` | suprime/antientropy.py:112-116 | exactly the entries of the requested buckets are sent |
| `AntiEntropy.Service.OnPush` | suprime/antientropy.py:118-121 | the store becomes the join with the entries pushed |
| `AntiEntropy.ExchangeRefinesFullMerge` | suprime/antientropy.py:88-121 | one exchange, its messages delivered in any order, leaves both stores at the join of the originals when the fingerprints tell their buckets apart |
| `AntiEntropy.ConfusedStaysApart` | suprime/antientropy.py:100-121 | a bucket that differs under one fingerprint is never reconciled |
| `AntiEntropy.ExchangeConvergesIff` | suprime/antientropy.py:88-121 | every order of delivery leads both stores to the join if and only if the fingerprints tell their buckets apart |
| `AntiEntropy.LegibleExchangeConvergesIff` | suprime/antientropy.py:30-121 | for legible stores every order of delivery leads to the join if and only if the hash has no collision among the texts of their buckets |
| `SwarmExchange.ReachableSigned` | suprime/antientropy.py:36-42 | in a reachable state no two items of two stores share a version and every origin is the name of a node |
| `SwarmExchange.ReachableExchangeConvergesIff` | suprime/antientropy.py:30-121 | so it is for any two stores of a reachable state when names hold no separator, whatever the keys are |
| `SwarmExchange.BarsKeepApart` | suprime/antientropy.py:36-121 | the failing case: two nodes with one write each whose stores no exchange brings together, whatever the hash |
| `AntiEntropy.ExchangeEnds` | suprime/antientropy.py:100-121 | every delivery brings the exchange nearer its end |
| `Persistence.PersistenceManager.Recover` | suprime/persistence.py:46-70 | the snapshot is joined in and the log replayed up to the first torn line, and the entries counted |
| `Persistence.PersistenceManager.Snapshot` | suprime/persistence.py:89-102 | the snapshot holds the live data and the log is empty |
| `Persistence.PersistenceManager.OnCommit` | suprime/persistence.py:80-87 | the commit is appended, and compacted into a snapshot when due |
| `Persistence.OnCommitIsRun` | suprime/persistence.py:80-102 | the commit hook is the uncrashed sequence of append, replace and truncate |
| `Persistence.CrashLine` | suprime/persistence.py:61-68 | a crash during an append costs at most the commit being appended, and that only if its record is cut |
| `Persistence.TornHidesRest` | suprime/persistence.py:57-69 | what stands behind a torn line is neither replayed nor counted |
| `Persistence.BlanksSkipped` | suprime/persistence.py:57-69 | blank lines are skipped and each whole record is counted once |
| `Persistence.RunSynced` | suprime/persistence.py:80-102 | when writes stamp above what they replace, disk and memory agree at every point of every run |
| `Persistence.RecoveryIsLwwJoin` | suprime/persistence.py:46-102 | after a crash at any point, recovery yields the last-writer-wins join of the durable commits, and the live data unless the last record was cut |
| `Persistence.LogAloneIsLwwJoin` | suprime/persistence.py:57-69 | without snapshots recovery is that join for any clocks |
| `Persistence.CompactedWriteIsLwwIff` | suprime/persistence.py:80-102 | a write followed by its snapshot recovers to that join exactly when it wins or changes nothing |
| `Persistence.LaggingWriteLosesEntry` | suprime/persistence.py:80-102 | a concrete lagging write after which recovery has lost the newer entry |
| `Persistence.RecoveryIsLwwJoinIff` | suprime/persistence.py:46-102 | over whole runs with any stamps: recovery is that join at every point and after every crash if and only if no snapshot drops a newest commit |
| `Tasks.WinnerUnique` | suprime/tasks.py:167-172 | a claim set has one winner |
| `Tasks.EarliestWins` | suprime/tasks.py:167-172 | the winner has the earliest claim, and of equally early ones the one of the lesser node |
| `Tasks.CompletedRecords` | suprime/tasks.py:221-233 | the task written back is done with the result the handler gave or failed with the error it raised, owned by the node that ran it |
| `Tasks.ClaimOnce` | suprime/tasks.py:205-213 | a claim is written once, with the claim time of the moment, and changes no other entry |
| `Tasks.TaskBoard.Submit` | suprime/tasks.py:131-146 | a new task is published pending, without owner, result or error |
| `TaskRounds.RoundEffects` | suprime/tasks.py:182-204 | a round forgets a task no longer pending, leaves alone what this node cannot run, and else counts one round and notes the claims |
| `TaskRounds.RunsExactlyWhen` | suprime/tasks.py:182-221 | a task runs in a round exactly when it is pending, handled here, watched for the grace rounds, its claims unchanged since the last, not run here before, and won |
| `TaskRounds.WinnerRunsOnTime` | suprime/tasks.py:182-233 | over any number of rounds the winner runs the task exactly once, in the first round its patience allows |
| `TaskRounds.RunStoresOutcome` | suprime/tasks.py:217-233 | a run leaves the task in the store with the outcome of the handler |
| `Tasks.TwoWinnersMissedOne` | suprime/tasks.py:167-172 | two nodes that each see themselves win cannot both have seen the other |
| `Tasks.ClaimOfTask` | suprime/tasks.py:159-165 | for slash-free ids a key under the claim prefix belongs to that task and names its claimer |
| `Tasks.TaskBoard.Claims` | suprime/tasks.py:159-165 | the claims found by scanning the store are exactly the live claims on the task |
| `Tasks.TaskBoard.Winner` | suprime/tasks.py:167-172 | the earliest claim wins, ties by node id; no claims, no winner |
| `Tasks.TaskBoard.ClaimIfNeeded` | suprime/tasks.py:205-213 | a claim is written once and never changed |
| `Tasks.TaskBoard.ExecuteIfWon` | suprime/tasks.py:215-233 | the handler runs only for a task won and never run here, and its outcome is written back |
| `Tasks.TaskBoard.EvaluateOne` | suprime/tasks.py:182-203 | a task runs only after the grace rounds, on a claim set unchanged since the round before, that this node wins |
| `Tasks.TaskBoard.TaskList` | suprime/tasks.py:152-157 | the tasks in the store, each once |
| `Tasks.TaskBoard.Evaluate` | suprime/tasks.py:176-203 | one coordination step over every task listed |
| `TaskSwarm.StepConsistent` | suprime/tasks.py:176-233 | every evaluation, submission and merge keeps claims unchanged and every execution witnessed by the claims it saw |
| `TaskSwarm.ArbitrationOverRuns` | suprime/tasks.py:176-233 | no node runs a task twice, and of two nodes that run the same task one had not seen the claim of the other |
| `TaskSwarm.EqualClaimsOneWinner` | suprime/tasks.py:159-172 | in every reachable state equal claim sets give one winner |
| `TaskSwarm.ViewsAgree` | suprime/tasks.py:205-213 | two executions that saw the same claim saw it with the same time |
| `TaskSwarm.EvalEachIsEvaluate` | suprime/tasks.py:176-203 | the step of the swarm is the evaluation of the board |
| `KvIndex.IdxKeyInjective` | suprime/kvstore.py:152-153 | slash-free names and index keys can be read back from an index entry |
| `KvIndex.RewriteAgrees` | suprime/kvstore.py:158-163 | moving the index entries of one key with its value keeps every index right |
| `KvIndex.PutRewrites` | suprime/kvstore.py:76-83 | a put is such a rewrite, expiry included |
| `KvIndex.QuorumPutRewrites` | suprime/kvstore.py:174-178 | so is the own part of a quorum write |
| `KvIndex.PutShowsIff` | suprime/kvstore.py:76-83 | a value put shows unless its ttl is over at once; one put by quorum without a ttl shows exactly when the key had not expired |
| `KvIndex.ShowsUntil` | suprime/kvstore.py:67-83 | a value put with a ttl shows until that is over and never after; one put without shows for good |
| `KvIndex.DeletedIsGone` | suprime/kvstore.py:91-95 | a deleted key has neither value nor expiry at any time, and other keys keep theirs |
| `KvIndex.ReadReaps` | suprime/kvstore.py:85-89 | reading an expired key leaves it without value and expiry, any other read changes nothing |
| `KvIndex.SweptAreGone` | suprime/kvstore.py:119-128 | a sweep takes out the keys listed and no others |
| `KvIndex.SweepKeepsScan` | suprime/kvstore.py:119-128 | after a sweep a scan shows what it showed before and nothing expired is left |
| `KvIndex.QuorumPutStaysHidden` | suprime/kvstore.py:174-178 | the failing case: put for a second and put again by quorum once expired, a value is stored and not shown |
| `KvIndex.FoldMatchesIff` | suprime/kvstore.py:105-150 | right after such a merge every query answers what a scan shows exactly when the key has expired or files as before |
| `KvIndex.FoldMatchesForGoodIff` | suprime/kvstore.py:91-150 | it does so then and after the key is deleted exactly when the new value files as the entries have it |
| `KvIndex.RepairLeavesIndexStale` | suprime/kvstore.py:232-233 | the failing case: the query for the old value still finds a key whose value now files differently |
| `KvIndex.RepairLeavesYes` | suprime/kvstore.py:232-233 | one such case with concrete values |
| `KvIndex.DeleteRewrites` | suprime/kvstore.py:91-95 | so is a delete |
| `KvIndex.DeleteAllAgrees` | suprime/kvstore.py:119-128 | sweeping keeps every index right |
| `KvIndex.BackfillAgrees` | suprime/kvstore.py:132-139 | a new index is complete at once |
| `KvIndex.AgreesLater` | suprime/kvstore.py:70-72 | indexes stay right as keys expire |
| `KvIndex.QueryMatchesScan` | suprime/kvstore.py:105-150 | a query answers exactly the scanned keys whose value files under the index key |
| `KvIndex.IndexAgreesOverRuns` | suprime/kvstore.py:76-178 | after any run of put, the own part of quorum_put, get, delete, sweep, create_index and merges that file alike, a query at any later time matches the scan |
| `KvStore.Database.ReadValue` | suprime/kvstore.py:89 | the live value at a key |
| `KvStore.Database.IsExpired` | suprime/kvstore.py:70-72 | expired exactly when the clock has reached a recorded expiry |
| `KvStore.Database.Reindex` | suprime/kvstore.py:158-163 | the loop over the indexes moves exactly the entries of this key |
| `KvStore.Database.MoveEntry` | suprime/kvstore.py:159-163 | for one index the old entry goes and the new one comes |
| `KvStore.Database.AddIndexEntry` | suprime/kvstore.py:155-156 | the entry for a key is marked present |
| `KvStore.Database.PutValue` | suprime/kvstore.py:76-83 | value, expiry and index entries after a put |
| `KvStore.Database.QuorumWrite` | suprime/kvstore.py:174-178 | value, index entries and a given expiry are written, and an older expiry stays |
| `KvStore.Database.FoldBest` | suprime/kvstore.py:232-241 | a newer entry replaces the value or removes it and moves no index entry |
| `KvStore.Database.DeleteKey` | suprime/kvstore.py:91-95 | value, expiry and index entries after a delete |
| `KvStore.Database.GetValue` | suprime/kvstore.py:85-89 | an expired key is reaped on access; otherwise its value is returned unchanged |
| `KvStore.Database.Scan` | suprime/kvstore.py:105-113 | the unexpired keys under a prefix with their values, in key order |
| `KvStore.Database.ListOfExpired` | suprime/kvstore.py:121-125 | the expired keys, each once |
| `KvStore.Database.SweepExpired` | suprime/kvstore.py:119-128 | every expired key is deleted and counted |
| `KvStore.Database.CreateIndex` | suprime/kvstore.py:132-139 | the index is registered and filled from a scan |
| `KvStore.Database.QueryIndex` | suprime/kvstore.py:141-150 | the unexpired keys filed under an index key, sorted |
| `Quorum.StepConsistent` | suprime/kvstore.py:167-269 | every local write, request, reply, close and read keeps acknowledgements backed by stored entries |
| `Quorum.QuorumsMeet` | suprime/kvstore.py:167-269 | write and read quorums that are large enough share a node |
| `Quorum.NewestIsNewest` | suprime/kvstore.py:222-229 | the entry chosen is at least as new as every reply |
| `Quorum.NewestIsReply` | suprime/kvstore.py:222-231 | the entry chosen is that of a reply, the first of the newest, and none is chosen only when no reply carries one |
| `Quorum.QuorumReadsItsWrites` | suprime/kvstore.py:167-269 | a read begun after a write was closed, with quorums larger together than the swarm, chooses a version at least as new, over any run with losses and timeouts |
| `Quorum.CloseGetRepairs` | suprime/kvstore.py:232-233 | read repair leaves the own replica at least as new as the version chosen |
| `Quorum.NewestSeesWrite` | suprime/kvstore.py:222-229 | in every consistent state the newest of enough replies is at least as new as a write closed before the read |
| `Quorum.ClosedStays` | suprime/kvstore.py:246-252 | a closed write stays as it is whatever arrives late |
| `QuorumService.Service.StartPut` | suprime/kvstore.py:176-189 | the write is applied here under a new stamp and as many peers asked as are needed and there |
| `QuorumService.Service.FinishPut` | suprime/kvstore.py:190-195 | the own copy and the acknowledged ones are counted and the request forgotten |
| `QuorumService.Service.StartGet` | suprime/kvstore.py:199-215 | the own replica is the first reply and as many peers are asked as are needed and there |
| `QuorumService.Service.OnWriteReq` | suprime/kvstore.py:238-244 | the replica is at least as new as the write afterwards |
| `QuorumService.Service.OnWriteResp` | suprime/kvstore.py:246-252 | an acknowledgement counts, and a late one changes nothing |
| `QuorumService.Service.OnReadReq` | suprime/kvstore.py:254-261 | the reply carries the raw entry, tombstones included |
| `QuorumService.Service.OnReadResp` | suprime/kvstore.py:263-269 | a reply is collected, and a late one changes nothing |
| `QuorumService.Service.FinishGet` | suprime/kvstore.py:216-234 | the request is forgotten, the newest reply chosen and folded into the own replica, and its value or, for a tombstone, nothing returned |
| `QuorumService.ActorMirrored` | suprime/kvstore.py:167-269 | each call of an object does to what its node holds what the step of the protocol says |
| `QuorumService.OthersMirrored` | suprime/kvstore.py:167-269 | and concerns no other node |
| `QuorumService.RunMirrored` | suprime/kvstore.py:167-269 | over any run the objects of all nodes and the protocol state agree |
| `QuorumService.CallsAnswer` | suprime/kvstore.py:190-229 | the copies and the replies an object answers from are those of the protocol state |
| `QuorumService.AnswerFromReplies` | suprime/kvstore.py:222-234 | the caller gets the value of a newest reply, or nothing for a tombstone or without any entry |
| `QuorumService.DoneWhenAllHeard` | suprime/kvstore.py:183-192 | in every reachable state a waiting request is done, short of its timeout, exactly when every peer asked has been heard |
| `QuorumService.CallersReadTheirWrites` | suprime/kvstore.py:167-234 | for callers of the objects: when the copies a put answered and the replies a later get ends with add up to more than the nodes there are, the reply chosen is at least as new as what was put, and if nothing newer came in the caller gets the very value put |
| `VectorClock.IncrementRises` | suprime/crdt.py:38-40 | counting puts a clock strictly after what it was |
| `VectorClock.MergeIsLubIff` | suprime/crdt.py:42-47 | the merge is the least upper bound exactly when no counter of the left clock is negative without a counterpart |
| `VectorClock.MergeOfNegative` | suprime/crdt.py:42-47 | the failing case: a negative counter that the other clock lacks stays |
| `VectorClock.MergeCommutes` | suprime/crdt.py:42-47 | merging clocks that count is commutative |
| `VectorClock.MergeAssociates` | suprime/crdt.py:42-47 | and associative |
| `VectorClock.MergeIdempotent` | suprime/crdt.py:42-47 | and idempotent |
| `VectorClock.MergeClocks` | suprime/crdt.py:42-47 | the loop over the other clock computes that merge |
| `VectorClock.PrecedesTransitive` | suprime/crdt.py:49-79 | happened-before is transitive |
| `VectorClock.Compare` | suprime/crdt.py:49-79 | the two passes with early exit decide exactly the pointwise order |
| `MvRegister.DominatedByMaximum` | suprime/crdt.py:287-312 | whatever is dominated is dominated by a version that is kept |
| `MvRegister.MaximaAbsorb` | suprime/crdt.py:287-312 | forgetting dominated versions early changes nothing |
| `MvRegister.MergedCommutes` | suprime/crdt.py:287-316 | merging registers is commutative on their sets of versions |
| `MvRegister.MergedAssociates` | suprime/crdt.py:287-316 | and associative |
| `MvRegister.MergedIdempotent` | suprime/crdt.py:287-316 | and idempotent |
| `MvRegister.Scan` | suprime/crdt.py:296-305 | a version is found superfluous exactly when it is kept already or dominated by a kept one, else those it dominates are found |
| `MvRegister.MergeVersions` | suprime/crdt.py:287-312 | the one-pass loop keeps exactly the causal maxima of both sides, each once |
| `MvRegister.MVRegister.Set` | suprime/crdt.py:280-282 | the register holds the new write alone, under a clock one further |
| `MvRegister.MVRegister.Merge` | suprime/crdt.py:287-316 | versions and clock are merged |
| `MvRegister.MVRegister.ApplyDigest` | suprime/crdt.py:324-330 | applying a digest is merging with the register it describes |
| `MvRegister.WriteFaithful` | suprime/crdt.py:280-282 | a write replaces everything its replica has seen |
| `MvRegister.RunFaithful` | suprime/crdt.py:280-316 | in every reachable state a replica shows the maxima of the writes that reached it and its clock covers them |
| `MvRegister.SameWritesSameVersions` | suprime/crdt.py:280-316 | replicas reached by the same writes show the same versions |
| `PushSum.MassIsConserved` | suprime/aggregate.py:61-112 | after any run values and weights in mailboxes and in flight add up to what was contributed |
| `PushSum.GatheringLowers` | suprime/aggregate.py:89-94 | adding masses together never raises the potential |
| `PushSum.HalvingKeeps` | suprime/aggregate.py:98-100 | splitting in half keeps it |
| `PushSum.RoundTotal` | suprime/aggregate.py:84-107 | a round replaces the masses of a mailbox by two halves of their sum, wherever they go |
| `PushSum.PushSumAggregator.Start` | suprime/aggregate.py:61-67 | the contribution joins the mailbox |
| `PushSum.PushSumAggregator.OnMessage` | suprime/aggregate.py:108-112 | received mass joins the mailbox |
| `PushSum.PushSumAggregator.AddUp` | suprime/aggregate.py:89-94 | the loop adds up values and weights |
| `PushSum.PushSumAggregator.RoundKey` | suprime/aggregate.py:86-107 | one aggregation: the estimate is renewed, half is kept, half sent, or both kept when alone |
| `PushSum.PushSumAggregator.Round` | suprime/aggregate.py:84-107 | every aggregation is rounded from its own mailbox alone |
| `PushSum.EstimateOf` | suprime/aggregate.py:96-97 | every aggregation with weight at hand gets the ratio of its own mailbox |
| `PushSum.SentOf` | suprime/aggregate.py:84-107 | over a round each aggregation sends its own parcels and no others, wherever it comes in the walk |
| `PushSum.RoundedHalves` | suprime/aggregate.py:84-107 | half of the mass stays and half goes in one parcel to the peer drawn, or stays when nobody is there, and nothing is lost |
| `PushSum.EstimateStays` | suprime/aggregate.py:92-97 | a round leaves the estimates of all other keys alone |
| `PushSumPotential.PotentialFalls` | suprime/aggregate.py:61-112 | rounds and deliveries never raise the potential; a contribution adds exactly its own |
| `PushSumPotential.AboveFloorBy` | suprime/aggregate.py:84-107 | the potential exceeds its floor by exactly the weighted square disagreement |
| `PushSumPotential.PotentialBounds` | suprime/aggregate.py:61-112 | over any run the potential lies between the floor and what the contributions put in |
| `PushSumPotential.FloorIsAgreement` | suprime/aggregate.py:84-107 | the potential is on the floor exactly when every record, in mailboxes and in flight, has the mean as its ratio |
| `PushSumPotential.AgreementIsFloor` | suprime/aggregate.py:84-107 | records that agree on any ratio agree on the mean, and the potential is on the floor |
| `PushSumPotential.EstimatesWithinContributions` | suprime/aggregate.py:96-97 | over any run every estimate lies between the least and the greatest contributed ratio |
| `Dedup.WindowIsTail` | suprime/node.py:279-283 | the cache holds exactly the last cap acceptances, without repeats |
| `Dedup.ReacceptedOnlyAfterCap` | suprime/node.py:279-290 | an id is accepted again only after at least cap other acceptances |
| `Dedup.DroppedOnlyRepeats` | suprime/node.py:285-290 | a message is dropped exactly when its id is among the last cap acceptances |
| `Dedup.NothingForgotten` | suprime/node.py:279-290 | with no more ids than the cap each is accepted exactly once |
| `Dedup.SwarmNode.Remember` | suprime/node.py:279-283 | the id joins set and queue, the oldest leaves both beyond the cap, and a new id keeps the two equal |
| `Dedup.SwarmNode.OnMessage` | suprime/node.py:285-290 | a message goes on to its handler exactly when the window lets it through |

## Left out

* Floating point: times, claim stamps and masses are reals, so rounding, the loss of the 1e-6 nudge at large stamps and NaN are not modelled.
* Interleaving at `await`: a handler, tick or hook is one atomic step, as on the in-process transports at zero latency.
* Subscribers and application callbacks beyond the fact that they are called: `on_deliver` is a list of what was delivered, `on_commit` runs after the write, task handlers are functions to an outcome.
* Lost, failed or duplicated sends: Plumtree and push-sum runs are lossless; HyParView packets may find nobody; quorum messages may be lost or late; RGA and store digests may be lost, delayed or repeated.
* Changing neighbour sets: Plumtree runs have fixed symmetric neighbours synced at the start; HyParView views are not wired to Plumtree.
* Plumtree completeness once the cache evicts: with evictions only the delivery window is proved.
* HyParView link symmetry and demotion on rejection: the code does not guarantee them (suprime/hyparview.py:131, 205-208).
- HyParViewSafety.ViewsAlwaysSafeIff: for a passive size of at least one; below it the code draws from an empty list.
* HyParView payloads of the wrong shape, and the return value of a send.
- Rga.Replica.VisibleIds: requires a grounded document, as local edits and merges of such make it; a digest whose predecessors are missing or run in a circle is not modelled (the source then never reaches those elements, and recurses without end only on a digest that holds the root id itself).
- Rga.Replica.WalkFrom: requires a grounded document, as `VisibleIds`.
- Rga.Replica.ToList: requires a grounded document, as `VisibleIds`.
- Rga.Replica.Insert: requires a grounded document, as `VisibleIds`.
- Rga.Replica.Append: requires a grounded document, as `VisibleIds`.
- Rga.Replica.Delete: requires a grounded document, as `VisibleIds`.
- Store.DistributedStore.ApplyDigest: merges a digest, which names each key once; the general `merge` of an iterable with repeated keys is not modelled.
* Convergence of the store across tombstone collection: `CollectGarbage` is specified, but no convergence is claimed after it, since a purged tombstone can be undone by a lagging replica.
- Persistence.RecoveryIsLwwJoin: covers one crash; a second crash after a torn tail with no snapshot in between loses the commits appended to the torn line. A file system that reorders writes is not modelled.
- AntiEntropy.ExchangeRefinesFullMerge: one exchange between two stores that are otherwise left alone; SHA-256 and the spelling of numbers are parameters, any functions.
- Tasks.TaskBoard.Claims: for slash-free task ids; with a slash, claims of one task could be read as claims of another.
- Tasks.TaskBoard.Winner: for slash-free task ids, as `Claims`.
- Tasks.TaskBoard.ExecuteIfWon: for slash-free task ids, as `Claims`.
- Tasks.TaskBoard.EvaluateOne: for slash-free task ids, as `Claims`.
- Tasks.TaskBoard.TaskList: for slash-free task ids, as `Claims`.
- Tasks.TaskBoard.Evaluate: for slash-free task ids, as `Claims`.
* Load models enter only through the claim time passed in.
- KvStore.Database.Reindex: for index names and index keys without a slash; entries of different index keys could otherwise not be told apart.
- KvStore.Database.PutValue: for index names and index keys without a slash, as `Reindex`.
- KvStore.Database.QuorumWrite: for index names and index keys without a slash, as `Reindex`.
- KvStore.Database.DeleteKey: for index names and index keys without a slash, as `Reindex`.
- KvStore.Database.GetValue: for index names and index keys without a slash, as `Reindex`.
- KvStore.Database.SweepExpired: for index names and index keys without a slash, as `Reindex`.
* Values that are None, and a second `create_index` under one name, which would leave entries stale.
- KvIndex.IndexAgreesOverRuns: one node; values merged in from other nodes are modelled, index entries and expiries merged in from them are not.
* Expiry in quorum reads: the source does not look at it there.
- QuorumService.Service.StartPut: the store holds plain entries; the index and expiry updates that go with the write are `KvStore.Database.QuorumWrite`.
- Quorum.QuorumReadsItsWrites: one database per node, no tombstone collection, and local writes that stamp above what they replace.
- MvRegister.MVRegister.Merge: the returned changed flag, which compares identities of freshly built tuples (suprime/crdt.py:313-316), is not modelled.
- MvRegister.MVRegister.ApplyDigest: the digest is already parsed, and the changed flag is left out as in `Merge`.
- PushSum.PushSumAggregator.Round: a send that fails loses its mass in the source (suprime/aggregate.py:107); the runs are lossless.
* Chances and rates: how fast gossip spreads or push-sum converges.
* Leader election, failure detection, trust, publish/subscribe filtering, counters, last-writer-wins maps, federated learning, load balancing: easier next to the rest.
* Cryptography (signatures, MACs, ciphers, proof of work), TCP framing, compression, JSON text, configuration, command line, dashboard, metrics and logging.
