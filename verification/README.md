# Verified models of a Redis 6.2.2 fork with hot-slot copying

This Dafny project models six parts of the server and proves what each of them
is for. Slot counts, node counts, block sizes, item limits and bitmap sizes are
parameters everywhere.

* **Cluster bus.** `ClusterBus` is a transition system over the nodes' views and
  a bag of packets in flight. `ClusterEpochs`, `ClusterElection`,
  `ClusterCollision` and `ClusterConvergence` prove properties of its runs;
  `ClusterSplitVote` plays a concrete bad one. `ClusterTable` has the same
  handlers as code that changes nodes, bitmaps and the slot table in place, each
  tied to the function of `ClusterBus` it implements. `Bitmaps`, `SlotRanges`,
  `Decimal` and `ClusterConfig` are the bitmaps and the text of `nodes.conf`;
  `HotGroup` is this fork's write cache for copied slots.
* **Append-only file.** `AofFormat` is the printer and the loader, `AofBuffer` the
  rewrite buffer of blocks, `AofHandoff` the rewrite as a state machine of the
  server, its child and the pipes between them, `AofRewrite` the rewriting of
  lists, `AofDataset` the dumping of strings and lists in several databases.
* **Blocking operations.** `BlockedClients` is the two-way index between clients
  and keys, `Blocking` the service of ready keys, `BlockingGifts` what each client
  is given, `BlockingRuns` the runs of a server, `BlockingServer` the loops that change the index in place.
* **ACL rules.** `Acl` interprets rules and compiles a user's rights into rules;
  `AclUser` has both as code over a bitmap; `AclFile` saves users to a file and
  loads them.
* **Bit operations.** `Popcount`, `BitStrings`, `Bitpos`, `BitField`, `BitOp`.
* **Linked lists.** `AdList` is the doubly linked list on the heap.

`Options` and `Counting` hold what several of them need.

## What is proved, and where the code falls short

* *Elections.* The Redis Cluster Specification, section "Replica election and
  promotion", promises at most one winner per epoch. This holds of every run
  with an agreed set of voting masters as long as the votes left over from before
  the two elections and the number of voters together stay below the sum of the
  two quorums (`ClusterElection.ElectionSafety`), hence of every run in which
  elections start with `failover_auth_count` at zero (`ClusterElection.OneWinner`).
  The code does not ensure the latter: the count is reset when an election is
  scheduled (server/src/cluster.c:3384) and not when it starts (3443-3455), while an
  ACK is counted whether or not an election is under way (2287-2299).
  `ClusterSplitVote.SplitVote` is a run in which one leftover vote, the least number
  that reaches the bound, lets two replicas win one epoch.
  `ClusterElection.TallyExact` says without any assumption that the count is right
  if and only if no vote was left over.
* *Hot-group writes.* No broadcast stops early, whatever the order of the
  dictionary, but coalescing writes by their first argument loses nothing only
  under a condition, which `HotGroup.CoalescingLosslessIff` gives exactly and
  `HotGroup.LosslessIffOneKey` in the usual case: every command must write its first
  argument and no other key, and do the same after `strlen`. MSET does not
  (`HotGroup.MsetIsLost`), nor does a command with a NUL byte that matters
  (`HotGroup.SetForwardableIff`). An EXEC has no first argument, and
  `addCmdToCache` then reads behind its array (server/src/cluster.c:4761).
* *Lost wake-ups.* Handling the ready keys ends and leaves nobody asleep on a key
  that has something for him, in every run in which a value is not replaced in
  place by one of another type that somebody waits for. `dbOverwrite` signals
  nothing; `BlockingRuns.OverwriteKeepsIff` is the exact condition, and
  `BlockingRuns.OverwriteLosesAWakeup` reaches the bad case the way `SORT ... STORE`
  does.
* *ACL files.* Replaying the emitted list of rules always rebuilds the user's
  command rights. Through a file they come back if and only if no subcommand holds a
  blank or a newline or ends in a tab or a carriage return, none of which
  `ACLSetUser` refuses (`AclFile.FileRoundTripIff`); `AclFile.TabIsLost` and
  `AclFile.NewlineRefused` are two inputs that do not.
* *Bit fields.* An operation leaves the exact, the wrapped or the nearest value on
  all inputs but two families of saturating SET, `BitField.WrongEnd`; that these are
  all is part of the contract of `BitField.Execute`.
* *Slot updates.* The comment at server/src/cluster.c:1808-1815 describes a master
  left without slots turning into a replica; in this fork that branch does
  nothing, and the model follows the code. A replica that knows no master reads
  through a null pointer when it adopts a free slot
  (`ClusterTable.Cluster.UpdateSlotsConfigWith`).
* *Truncated logs.* A log cut inside an open MULTI is truncated after its last whole
  command, not before the MULTI; only a log that ends between commands is
  reverted to exactly before it. `AofFormat.AnyPrefixLoads` gives both offsets.

## Model

| member | source | states |
|---|---|---|
| `ClusterEpochs.StepSound` | server/src/cluster.c:1928-1939 | One step of any kind (packet, election, bump, takeover, SET-CONFIG-EPOCH or another operator command) keeps every configEpoch of every table and packet at most the currentEpoch beside it, and lowers no epoch anywhere |
| `ClusterEpochs.EpochsOverRuns` | server/src/cluster.c:1928-1939 | Over whole runs of the bus: in every state each epoch is bounded by the currentEpoch it travels with, and between any two states no currentEpoch and no known node's configEpoch has gone down |
| `ClusterEpochs.UpdateAdvances` | server/src/cluster.c:2316-2339 | An UPDATE only ever raises the epoch of the node it is about, and leaves the table well formed and dominated |
| `ClusterEpochs.BumpAdvances` | server/src/cluster.c:1190-1207 | A bump without consensus keeps dominance: the new configEpoch is the raised currentEpoch |
| `ClusterEpochs.ConfigEpochAdvances` | server/src/cluster.c:5647-5682 | So does CLUSTER SET-CONFIG-EPOCH, on a node that knows no other and has epoch zero, whatever epoch it is given |
| `ClusterEpochs.CollisionAdvances` | server/src/cluster.c:1255-1270 | So does the bump that resolves a collision |
| `ClusterEpochs.CorrectionDominated` | server/src/cluster.c:2204-2227 | The UPDATE sent to a node with an outdated claim carries an epoch bounded by its own currentEpoch |
| `ClusterElection.VoteElectoral` | server/src/cluster.c:3068-3169 | A vote request leads to at most one new ballot, for the epoch of the request, by a voter that had voted in no epoch as high, and to exactly one ACK for it |
| `ClusterElection.AckElectoral` | server/src/cluster.c:2287-2299 | An ACK adds one to failover_auth_count if and only if it comes from a master with slots and its epoch is not below the election's |
| `ClusterElection.ElectionStep` | server/src/cluster.c:3068-3169 | One step of the bus keeps the election invariant: at most one ballot per voter and epoch, every ACK in flight backed by a ballot, no ballot counted twice, every victory backed by a majority count |
| `ClusterElection.InvariantOverRuns` | server/src/cluster.c:3443-3473 | The election invariant holds in every state of every run |
| `ClusterElection.BackedOverRuns` | server/src/cluster.c:3457-3473 | If elections start from a count of zero and no winner believes the cluster smaller than the agreed voters, every victory in every run rests on distinct voters that are more than half of them |
| `ClusterElection.ElectionSafety` | server/src/cluster.c:3443-3473 | Election safety, with no assumption on how elections start or on the size nodes believe in: in any run with agreed voters two victories in one epoch are the same node's if the votes left over from before them and the number of voters together are below the sum of the two quorums |
| `ClusterElection.OneWinner` | server/src/cluster.c:3443-3473 | So an epoch has one winner in any run with agreed voters whose elections start from a count of zero and whose winners know the size of the cluster |
| `ClusterElection.TallyExact` | server/src/cluster.c:2287-2299 | With no assumption on the run: a voter has at most one ballot per epoch, and the count of a running election equals the number of distinct voters counted for its epoch if and only if it started without stale votes |
| `ClusterSplitVote.SplitVote` | server/src/cluster.c:3378-3386 | The bound cannot be raised by one: a concrete run of five nodes with three agreed voters in which one vote counted after the reset and before the next election lets two nodes win epoch 2, each with the quorum of a majority |
| `ClusterCollision.PingBeats` | server/src/cluster.c:2229-2238 | A heartbeat, of a master or a replica, changes a node's own epoch only by the collision rule: both are masters, the sender has the same epoch and a greater name |
| `ClusterCollision.MastersKept` | server/src/cluster.c:1255-1270 | In runs of heartbeats every view of a master and every packet in flight stays at or below the epoch the master really has |
| `ClusterCollision.BumpsIff` | server/src/cluster.c:1255-1263 | Whatever a node knows of the sender, a PING or PONG makes it bump if and only if both are masters, the sender has the greater name and announces the node's own epoch, and no greater epoch of the sender is known |
| `ClusterCollision.HistoriesStep` | server/src/cluster.c:1255-1270 | Each bump moves a master to an epoch it never had, leaving one that a master with a greater name has had |
| `ClusterCollision.TotalBound` | server/src/cluster.c:1255-1270 | The number of epochs ever had by a master and all greater ones at most doubles with each further master |
| `ClusterCollision.CollisionBumpsBounded` | server/src/cluster.c:1255-1270 | In any run of heartbeats of a cluster with N masters and any replicas, with arbitrarily stale packets, at most 2^N - 1 - N collision bumps happen |
| `ClusterCollision.GreatestNeverMoves` | server/src/cluster.c:1255-1270 | Neither the master with the greatest name nor a replica ever bumps |
| `ClusterCollision.SettledIffDistinct` | server/src/cluster.c:2229-2238 | Once every view of a master is current, no bump is enabled if and only if the masters' epochs are pairwise different |
| `ClusterConvergence.UpdateSlotsFaithful` | server/src/cluster.c:1758-1799 | Adopting a claim only ever replaces an owner by one with a greater epoch, and keeps every slot with a claimant of it |
| `ClusterConvergence.LearnFaithful` | server/src/cluster.c:1928-1939 | Any list of heartbeats and UPDATEs that tell one fixed claim per node keeps the table faithful to the claims |
| `ClusterConvergence.RightOwnerUnique` | server/src/cluster.c:1778-1786 | With pairwise distinct epochs a slot has one rightful owner |
| `ClusterConvergence.TableConverges` | server/src/cluster.c:1758-1799 | From any table whose owners are claimants and in which the receiver's own slots, if it is a master, are settled: with nothing importing, whatever the order and repetitions of the packets, every slot ends with the claimant of the greatest epoch once everybody has been heard |
| `ClusterConvergence.NewcomerConverges` | server/src/cluster.c:1758-1799 | In particular from a table that holds the receiver's own slots and nothing else, which is the empty table if it is a replica |
| `ClusterConvergence.NodesAgree` | server/src/cluster.c:2326-2339 | Two nodes that start from such tables and have heard everybody have the same table |
| `Bitmaps.TestBit` | server/src/cluster.c:4121-4126 | bitmapTestBit: the bit at a position |
| `Bitmaps.SetBit` | server/src/cluster.c:4128-4133 | bitmapSetBit: that bit is set and every other one of the whole bitmap is as before |
| `Bitmaps.ClearBit` | server/src/cluster.c:4135-4140 | bitmapClearBit: likewise, cleared |
| `Bitmaps.CountOneMore` | server/src/cluster.c:4162-4163 | Setting one clear bit raises the bit count by exactly one |
| `ClusterTable.Cluster.SetSlotBit` | server/src/cluster.c:4159-4181 | The bit is set, numslots stays the bit count, and the other bits and nodes are untouched |
| `ClusterTable.Cluster.ClearSlotBit` | server/src/cluster.c:4184-4189 | The bit is cleared, numslots stays the bit count, the old bit is returned |
| `ClusterTable.Cluster.AddSlot` | server/src/cluster.c:4200-4205 | A slot with an owner is refused; otherwise the owner table and the bitmaps change together and agree again |
| `ClusterTable.Cluster.DelSlot` | server/src/cluster.c:4210-4217 | An unassigned slot is refused; otherwise the owner's bit was set, so the assertion of the source holds, and both indexes lose it |
| `ClusterTable.Cluster.DelNodeSlots` | server/src/cluster.c:4221-4233 | All slots of a node are freed, their number is returned, and the view is the one of the bus model |
| `ClusterTable.Cluster.ServesIff` | server/src/cluster.c:4159-4217 | In every valid table numslots is positive if and only if the node owns a slot |
| `ClusterTable.Cluster.TakeOver` | server/src/cluster.c:1758-1799 | The loop over claimed slots: exactly the slots of the rebinding rule change hands, with the dirty slots and the migrated count as in the source |
| `ClusterTable.Cluster.UpdateSlotsConfigWith` | server/src/cluster.c:1729-1838 | The new view is the one of the bus model. Keys are dropped exactly for slots the node lost while holding keys in them, unless the claim emptied the node or its master and migration is allowed or the claim took only their slots: then nothing is dropped. A null pointer is read if and only if the node is a replica that knows no master and a free slot was taken |
| `ClusterTable.Cluster.SetNodeAsMaster` | server/src/cluster.c:1702-1717 | The promotion of a replica, as the bus model has it |
| `ClusterTable.Cluster.ClaimSlotsOf` | server/src/cluster.c:3280-3285 | The loop that moves all slots of the failed master to this node |
| `ClusterTable.Cluster.FailoverReplaceYourMaster` | server/src/cluster.c:3270-3299 | A winner becomes a master owning exactly its own and its old master's slots; no effect on a master or a node without one |
| `ClusterTable.Cluster.ClaimIsCurrent` | server/src/cluster.c:3141-3159 | Whether no claimed slot is served under a newer epoch |
| `ClusterTable.Cluster.SendFailoverAuthIfNeeded` | server/src/cluster.c:3068-3169 | The vote is granted exactly under the conditions of the bus model, and lastVoteEpoch is then the current epoch |
| `ClusterTable.Cluster.GetMaxEpoch` | server/src/cluster.c:1146-1159 | The greatest epoch known: attained, and not exceeded by any node's or the current one |
| `ClusterTable.Cluster.BumpConfigEpochWithoutConsensus` | server/src/cluster.c:1190-1207 | The bump and its refusal, as the bus model has them |
| `ClusterTable.Cluster.HandleConfigEpochCollision` | server/src/cluster.c:1255-1270 | The collision rule with its caller's check, as the bus model has it |
| `ClusterTable.Cluster.ProcessHeader` | server/src/cluster.c:1928-1939 | The effect of a packet's header on the two epochs |
| `ClusterTable.Cluster.UpdateSize` | server/src/cluster.c:4298-4306 | The cluster size is the number of masters with a slot |
| `SlotRanges.RunsCover` | server/src/cluster.c:4520-4541 | The ranges printed are ordered, maximal and cover exactly the slots set |
| `SlotRanges.CoverUnique` | server/src/cluster.c:4520-4541 | No other list of ranges does |
| `SlotRanges.GenNodeSlots` | server/src/cluster.c:4523-4541 | The loop over one node's bitmap prints exactly those ranges |
| `SlotRanges.GenNodesSlotsInfo` | server/src/cluster.c:4564-4593 | The single pass over all slots leaves each unfiltered owner the text of its own ranges and nobody else any |
| `SlotRanges.BothGenerators` | server/src/cluster.c:4518-4541 | Run on one table, the single pass and the per-node loop print the same text for every unfiltered node that serves slots, and nothing for the others |
| `SlotRanges.ParseRangeWord` | server/src/cluster.c:310-349 | A printed range is read back as that range |
| `ClusterConfig.SlotsText` | server/src/cluster.c:4518-4541 | What is printed for a node comes from its bitmap and is the text of the slots it owns |
| `ClusterConfig.LoadSlots` | server/src/cluster.c:310-354 | The loading loop gives the node, through clusterAddSlot, the slots of its words that are free, keeps the table, the bitmaps and the counters in agreement, and fails exactly when a word names a slot out of range |
| `SlotRanges.TableRebuilt` | server/src/cluster.c:310-354 | Loading the printed slots of every owner, in any order and however often, into an empty table of owners rebuilds the table |
| `ClusterConfig.Reload` | server/src/cluster.c:310-354 | The same with clusters: printing all nodes of one and loading them into an empty one rebuilds the owner table, every bitmap and every numslots |
| `HotGroup.ForwardedExactly` | server/src/cluster.c:4755-4759 | A command is forwarded as it was issued if and only if none of its arguments holds a NUL byte, since lengths are taken with strlen |
| `HotGroup.HotSlot.AddCmdToCache` | server/src/cluster.c:4737-4770 | The pending write of the first argument is the new command, and the counter is the pending keys plus all overwrites so far; without a first argument, as with EXEC, the source reads behind its array |
| `HotGroup.HotSlot.SendToGroup` | server/src/cluster.c:4812-4833 | One operation goes to every related node but this one, once |
| `HotGroup.HotSlot.BroadcastCommandInHotGroup` | server/src/cluster.c:4796-4845 | Whatever the iteration order, the counter never stops the broadcast early: every pending write is sent once to everybody and the cache is left empty |
| `HotGroup.CoalescingLosslessIff` | server/src/cluster.c:4737-4770 | For any set of commands, each doing to any number of keys what its arguments say: on every history of them, with broadcasts in any order, the other node ends in the state it would have had if every write had been forwarded at once, if and only if each command has a first argument and does the same after strlen, one that replaces another writes at least its keys, and commands pending under different keys agree |
| `HotGroup.LosslessIffOneKey` | server/src/cluster.c:4761-4763 | Where every key can also be written by a command of its own, this holds if and only if every command does the same after strlen and writes its first argument and no other key |
| `HotGroup.MsetIsLost` | server/src/server.c:643-645 | MSET does not meet the condition: a later SET of its first key makes its other keys disappear, and a later SET of another of its keys can be undone by the order of the broadcast |
| `HotGroup.LastWriteKept` | server/src/cluster.c:4762-4763 | A pending operation is the last write of its key since the last broadcast |
| `HotGroup.SetForwardableIff` | server/src/cluster.c:4755-4759 | A SET with a NUL-free key does the same after strlen if and only if its value is NUL-free |
| `AofBuffer.Block.Fill` | server/src/aof.c:136-143 | As many bytes as fit are appended to a block, after those it has |
| `AofBuffer.Block.Drop` | server/src/aof.c:116-118 | The first bytes of a block are gone and the others moved to its front |
| `AofBuffer.RewriteBuffer.Append` | server/src/aof.c:125-169 | The buffer holds what it held and then the new bytes, and the handler that drains it is installed |
| `AofBuffer.RewriteBuffer.ChildWriteDiffData` | server/src/aof.c:95-122 | Under any answers of the kernel, what was sent and what is left are, in this order, what was held; nothing is sent once the child has asked to stop; the handler goes exactly when stopped or empty |
| `AofBuffer.RewriteBuffer.Write` | server/src/aof.c:174-194 | Either everything is written and the count is its length, or -1 is returned after a prefix |
| `AofBuffer.RewriteBuffer.WriteAndReset` | server/src/aof.c:1871-1876 | At the end of a rewrite the rest is written, all of it on success and a prefix otherwise, and the buffer is empty either way |
| `AofBuffer.RewriteBuffer.Size` | server/src/aof.c:79-90 | The number of bytes held |
| `AofBuffer.RewriteBuffer.BlocksAreFull` | server/src/aof.c:125-169 | Every block but the first and the last is full, so memory is bounded by the data held plus two blocks |
| `AofFormat.CatGenericCommand` | server/src/aof.c:550-573 | The printer appends exactly the format of a command |
| `AofFormat.CommandRead` | server/src/aof.c:826-876 | A printed command with arbitrary byte arguments is read back whatever follows it |
| `AofFormat.TornCommand` | server/src/aof.c:826-876 | A command cut off anywhere reads as an unexpected end of file, never as a format error |
| `AofFormat.LoadCommand` | server/src/aof.c:816-876 | One turn of the loading loop up to the command lookup computes that reading |
| `AofFormat.LoadAppendOnlyFile` | server/src/aof.c:751-969 | The loader, with its branches for an empty file, an RDB preamble, a truncated tail and an open MULTI, computes the fold that the next rows are about |
| `AofFormat.AnyPrefixLoads` | server/src/aof.c:805-937 | For every byte prefix of a log the loader feeds exactly the commands it holds whole and reports no format error. A prefix that ends inside a command is truncated where the last whole one ends; one that ends between commands is loaded whole, or truncated exactly before the last MULTI if no EXEC follows it |
| `AofFormat.LogRoundTrip` | server/src/aof.c:805-903 | A printed log is loaded command by command, whole unless a MULTI is left open |
| `AofRewrite.RewriteListObject` | server/src/aof.c:991-1031 | The loop with its two counters prints exactly the chunked RPUSH commands |
| `AofRewrite.ChunksRebuild` | server/src/aof.c:991-1031 | Those commands rebuild the list in order; each pushes between one and the limit of items and only the last fewer than the limit |
| `AofHandoff.FedReplays` | server/src/aof.c:611-624 | What is emitted for a write replays as that write in its own database and leaves that database selected |
| `AofHandoff.WriteKeepsDiff` | server/src/aof.c:663-674 | A write fed during a rewrite extends what the child, the pipe and the buffer hold together by exactly its bytes |
| `AofHandoff.StepKeeps` | server/src/aof.c:1544-1669 | Every step of server, child and pipes, in any interleaving and with any failure, keeps the hand-off invariant |
| `AofHandoff.ExactlyOnce` | server/src/aof.c:1588-1643 | When the child has succeeded, its file and the parent's buffer are the snapshot followed by every byte fed since the fork, once and in order; the bytes start with a SELECT and replay to the writes since the fork, each in its own database |
| `AofHandoff.Installed` | server/src/aof.c:1849-2008 | What the parent installs is that whole history, with the old buffer dropped and the next write bound to start with a SELECT |
| `AofHandoff.LoadingRestoresTheDataset` | server/src/aof.c:751-969 | If snapshots rebuild their datasets: in every reachable state that logs, through any number of rewrites that succeed, fail or are killed, loading the file and the unflushed bytes rebuilds exactly the live dataset |
| `AofDataset.DumpRebuilds` | server/src/aof.c:1457-1490 | The commands dumped for strings and lists in any number of databases, keys in any order, rebuild the dataset on a fresh client |
| `AofDataset.StringsAndListsComeBack` | server/src/aof.c:1449-1490 | So for datasets of strings and lists, loading restores the live dataset in every reachable state, with nothing assumed of the snapshot |
| `AofHandoff.CrashLosesOnlyATail` | server/src/aof.c:910-937 | Loading the file alone brings back a prefix of the history, without format error, and all of it if nothing was unflushed |
| `AofHandoff.RewriteCompletes` | server/src/aof.c:1761-1802 | From every reachable logging state without a child a rewrite can run to its end with a write in the middle |
| `BlockedClients.AddKeysEnters` | server/src/blocked.c:638-667 | The loop of blockForKeys: the client waits for exactly the keys given and stands last, once, in the queue of each |
| `BlockedClients.BlockSound` | server/src/blocked.c:626-669 | Blocking keeps the two-way index, the counters, the flags and the ready dictionary sound |
| `BlockedClients.UnblockSound` | server/src/blocked.c:174-208 | Unblocking keeps them too, takes the client out of every queue and no one else, and puts it in the unblocked list |
| `BlockedClients.SignalSound` | server/src/blocked.c:726-762 | A signal keeps them, changes the ready queue only, and leaves the key queued if a client of the type waits for it |
| `BlockedClients.RotateSound` | server/src/blocked.c:275-279 | Rotating a queue keeps them |
| `BlockedClients.ReprocessSound` | server/src/blocked.c:119-127 | Taking a client from the unblocked list keeps them |
| `Blocking.FirstComeFirstServed` | server/src/blocked.c:262-319 | Serving a key visits a prefix of its queue, each client once; those blocked for its type are served in the order they blocked, the others go behind the rest in order; it stops early only if nothing is left to give |
| `BlockingGifts.ServedInTurn` | server/src/blocked.c:262-319 | Each client served by a list is given, in the order of the queue, the element at its end of the list as those before it left it: handed over, or moved to the asked end of its target, or put back unchanged; the database in the end is what the last one left |
| `BlockingGifts.BlpopInOrder` | server/src/blocked.c:262-319 | Clients of BLPOP get the elements of the list in its order, and what is left is the rest of the list |
| `Blocking.OthersUntouched` | server/src/blocked.c:275-279 | A client blocked for another type is as it was |
| `BlockingGifts.GiveListIsGift` | server/src/blocked.c:281-301 | One service of a list: the element comes from the asked end; it is handed over, or stands at the asked end of the target, which may be the list itself or a new key, or everything is as it was |
| `Blocking.GiveListConserves` | server/src/blocked.c:281-301 | That service changes the number of occurrences of no element, lists and deliveries together |
| `Blocking.HandleConserves` | server/src/blocked.c:544-597 | Handling all ready keys neither loses nor duplicates an element |
| `Blocking.ServeKeyKeeps` | server/src/blocked.c:262-368 | After a key has been served it starves nobody, every other starving key is queued, and a new ready key has cost a blocked client |
| `Blocking.NoLostWakeup` | server/src/blocked.c:544-597 | handleClientsBlockedOnKeys ends, and then no key holding elements has a client blocked for its type |
| `BlockingRuns.EveryRun` | server/src/blocked.c:544-597 | In every reachable state the index is two-way, counters, flags and ready dictionary are exact and every starving key is queued |
| `BlockingRuns.OverwriteKeepsIff` | server/src/db.c:224-266 | Replacing a value in place, which signals nothing, keeps that invariant if and only if the key is queued already or the new value feeds nobody who waits |
| `BlockingRuns.OverwriteLosesAWakeup` | server/src/sort.c:565-577 | The other case is reached by a run from the empty server: a client ends asleep on a key that holds a list |
| `BlockingServer.Server.BlockForKeys` | server/src/blocked.c:626-669 | blockForKeys and blockClient compute the specified index |
| `BlockingServer.Server.UnblockClientWaitingData` | server/src/blocked.c:673-707 | The client leaves the queue of each of its keys, in any order of the dictionary, and emptied queues are deleted |
| `BlockingServer.Server.UnblockClient` | server/src/blocked.c:174-208 | unblockClient computes the specified index, and its counters are never below one before |
| `BlockingServer.Server.QueueClientForReprocessing` | server/src/blocked.c:163-170 | The flag is set and the client listed unless it already was |
| `BlockingServer.Server.SignalKeyAsReady` | server/src/blocked.c:726-762 | signalKeyAsReady computes the specified index |
| `BlockingServer.Server.ServeClientBlockedOnList` | server/src/t_list.c:851-905 | Reply, push to the target with a signal if it is created, or the wrong-type error with nothing changed |
| `BlockingServer.Server.ServeClientsBlockedOnListKey` | server/src/blocked.c:262-319 | The counted loop computes the specified service; the queue is never empty while clients are left to visit |
| `BlockingServer.Server.ServeClientsBlockedOnSortedSetKey` | server/src/blocked.c:324-368 | Likewise for sorted sets |
| `BlockingServer.Server.HandleClientsBlockedOnKeys` | server/src/blocked.c:544-597 | The two nested loops end under the measure (blocked clients, ready keys) and compute the specified state, in which nobody starves |
| `Acl.SetUserTidy` | server/src/acl.c:825-1014 | Every rule keeps a user tidy: bits of no command follow the reserved bit, subcommand lists belong to commands whose bit is not set and have no name twice, ALLCOMMANDS implies every bit |
| `Acl.ReachableTidy` | server/src/acl.c:825-1014 | So does every list of rules |
| `Acl.ParseCategory` | server/src/acl.c:993-998 | The category rules emitted are understood as that category |
| `Acl.ParseSub` | server/src/acl.c:950-979 | A subcommand rule is split at the first bar and understood as that subcommand |
| `Acl.GreedyReplays` | server/src/acl.c:506-558 | The greedy loop ends, and its rules are accepted and make of the fake user one with the same reserved bit and no subcommands |
| `Acl.FixReplays` | server/src/acl.c:561-585 | The rules of the final pass give each command the user's bit and subcommands and change nothing else |
| `Acl.DescribeRebuilds` | server/src/acl.c:464-603 | Every rule emitted is accepted, and on a fresh user the list rebuilds exactly the bitmap and the subcommand lists |
| `Acl.PanicUnreachable` | server/src/acl.c:591-601 | The predicted bitmap equals the user's, so the panic cannot happen |
| `Acl.ReachableRoundTrip` | server/src/acl.c:464-603 | Both hold for every user that rules can make |
| `Acl.SamePermissions` | server/src/acl.c:1179-1211 | The rebuilt user may run exactly the same commands and subcommands |
| `AclFile.FileRoundTripIff` | server/src/acl.c:1502-1675 | Saved to an ACL file and loaded again, all users have their command rights back if and only if no subcommand holds a blank or a newline or ends in a tab or a carriage return |
| `AclFile.LoadedSafe` | server/src/acl.c:1521-1596 | Whatever an ACL file holds, no user loaded from it has such a subcommand |
| `AclFile.TabIsLost` | server/src/acl.c:1588-1591 | A subcommand that ends in a tab is accepted, saved, and loaded without the tab |
| `AclFile.NewlineRefused` | server/src/acl.c:1519-1560 | A subcommand with a newline in it is accepted and saved, and the file is then refused |
| `AclFile.LoadFromFile` | server/src/acl.c:1502-1645 | The loader with its fake user, its trims and its collecting of errors computes the specified users, or none |
| `AclUser.User.GetCommandBit` | server/src/acl.c:379-383 | The bit of an id, false behind the end of the bitmap |
| `AclUser.User.SetCommandBit` | server/src/acl.c:397-406 | One bit changes, and clearing one clears ALLCOMMANDS |
| `AclUser.User.SetCommandBitsForCategory` | server/src/acl.c:414-429 | All commands of the category that are not a module's, and only they, get the bit and lose their subcommands |
| `AclUser.User.CountCategoryBits` | server/src/acl.c:435-455 | The two counts, modules' commands included |
| `AclUser.User.AddAllowedSubcommand` | server/src/acl.c:712-739 | A subcommand is added last unless the list has it in any letter case |
| `AclUser.User.SetUser` | server/src/acl.c:825-1014 | ACLSetUser computes the specified rights, refuses words that are no rule, and leaves the rights alone on an error |
| `AclUser.User.CheckCommandPerm` | server/src/acl.c:1179-1211 | The command part of the permission check |
| `AclUser.ChooseCategory` | server/src/acl.c:508-534 | The inner loop finds the specified best category |
| `AclUser.EmitCategories` | server/src/acl.c:506-558 | The greedy loop over fake and temporary users emits the specified rules and ends |
| `AclUser.EmitCommands` | server/src/acl.c:561-585 | The final pass emits the specified rules and leaves the fake user with the specified bitmap |
| `AclUser.DescribeUserCommandRules` | server/src/acl.c:464-603 | The whole function emits the specified rules and its comparison of bitmaps always succeeds |
| `Popcount.SwarCounts` | server/src/bitops.c:66-84 | Each byte of a word, after the shifts and masks, is the number of bits set in that byte |
| `Popcount.ColumnsCount` | server/src/bitops.c:66-79 | Up to seven such words add up without a carry between bytes |
| `Popcount.TimesCounts` | server/src/bitops.c:79-86 | As long as the four bytes add up to less than 256, the multiplication leaves their running sums in the bytes |
| `Popcount.SevenWords` | server/src/bitops.c:50-86 | The seven-word step yields the number of bits set in its 28 bytes, at most 224 |
| `Popcount.EightWordsOverflow` | server/src/bitops.c:79-86 | Eight words would overflow: on 32 bytes of ones the step would yield zero |
| `Popcount.RedisPopcount` | server/src/bitops.c:40-92 | For every memory, start, length and alignment the result is the number of bits set |
| `Bitpos.SkipBytes` | server/src/bitops.c:121-144 | The skipping loops pass over no wanted bit, and stop where the next eight bytes hold one or the string ends |
| `Bitpos.LoadWord` | server/src/bitops.c:146-158 | The word loaded is the number the next 64 bits, zero-padded, spell |
| `Bitpos.ScanWord` | server/src/bitops.c:167-181 | The scan finds the first wanted bit of the word, so the panic cannot happen |
| `Bitpos.RedisBitpos` | server/src/bitops.c:101-186 | The least position holding the bit, -1 for a missing one, the length in bits for a missing zero, at every alignment |
| `Bitpos.BitposCommand` | server/src/bitops.c:832-907 | The same within any start and end, negative ones included, with -1 for a zero not found before an explicit end |
| `BitField.SetUnsignedBitfield` | server/src/bitops.c:209-222 | The bits of the field are those of the value, first bit highest, and no other bit changes |
| `BitField.GetUnsignedBitfield` | server/src/bitops.c:229-241 | The number the bits of the field spell |
| `BitField.SetSignedBitfield` | server/src/bitops.c:224-227 | The field gets the value's two's complement bits |
| `BitField.GetSignedBitfield` | server/src/bitops.c:243-263 | The two's complement value of the field |
| `BitField.ReadsBack` | server/src/bitops.c:209-241 | Reading after writing gives the value modulo two to the width |
| `BitField.SignedReadsBack` | server/src/bitops.c:224-263 | Reading a signed field after writing gives the value wrapped to the width, the value itself if it fits |
| `BitField.OthersKept` | server/src/bitops.c:209-241 | Fields that do not overlap read as before |
| `BitField.CheckUnsignedBitfieldOverflow` | server/src/bitops.c:288-323 | Widths 1 to 63: no overflow if and only if the sum fits; otherwise the wrapped sum or the exceeded bound |
| `BitField.SignedOverflow` | server/src/bitops.c:325-354 | The tests with wrapping subtractions find an overflow if and only if the sum does not fit, and take it for one above the maximum exactly when it is or the distance to the maximum wraps |
| `BitField.HandleWrap` | server/src/bitops.c:356-376 | The wrapping branch yields the sum wrapped to the width |
| `BitField.CheckSignedBitfieldOverflow` | server/src/bitops.c:325-377 | Widths 1 to 64, INCRBY and SET: the exact decision, and the limit for each overflow type |
| `BitField.Execute` | server/src/bitops.c:1049-1122 | SET and INCRBY leave the exact, wrapped or clamped value, the right reply and every other bit as it was, or nothing if failing was asked for, if and only if it is not a saturating SET of a negative value to an unsigned field or of one whose distance to the maximum wraps to a signed field; those leave the maximum |
| `BitField.SaturatesWrongly` | server/src/bitops.c:325-345 | SET i8 with the least 64-bit integer leaves 127, not -128 |
| `BitField.Get` | server/src/bitops.c:1123-1146 | Reading through nine zero-padded bytes equals reading the string padded with zeros for ever |
| `BitOp.OneByte` | server/src/bitops.c:729-761 | The byte loop, early exit included, folds all sources padded with zeros |
| `BitOp.CombinedBytes` | server/src/bitops.c:680-729 | A bitwise operation on 64-bit words is one on each of their bytes |
| `BitOp.FastPath` | server/src/bitops.c:661-727 | The blocks of 32 bytes, combined as four words, come out as the byte loop would compute them |
| `BitOp.Compute` | server/src/bitops.c:616-764 | With and without the fast path every byte is that fold, and the result is as long as the longest source |
| `AdList.List.AddNodeHead` | server/src/adlist.c:89-107 | The list of nodes is the new one and then the old ones; links, ends and length agree |
| `AdList.List.AddNodeTail` | server/src/adlist.c:115-133 | Likewise at the tail |
| `AdList.List.InsertNode` | server/src/adlist.c:135-162 | The new node stands right before or after the given one |
| `AdList.List.DelNode` | server/src/adlist.c:168-181 | Exactly the given node is gone |
| `AdList.List.RotateTailToHead` | server/src/adlist.c:331-362 | The last node is the first, the others follow in order |
| `AdList.List.RotateHeadToTail` | server/src/adlist.c:365-377 | The first node is the last |
| `AdList.RotationsInverse` | server/src/adlist.c:331-377 | The two rotations undo each other |
| `AdList.FullCircle` | server/src/adlist.c:365-377 | As many rotations as there are nodes change nothing |
| `AdList.List.Join` | server/src/adlist.c:381-397 | The nodes of the other list follow, and it is empty and valid |
| `AdList.List.Index` | server/src/adlist.c:316-328 | The node at an index, counted from the tail if negative, or none |
| `AdList.List.SearchKey` | server/src/adlist.c:291-309 | The first node with the value, or none |
| `AdList.Dup` | server/src/adlist.c:251-280 | A fresh list of fresh nodes with the same values |
| `AdList.NextAndDelete` | server/src/adlist.c:230-241 | After listNext, deleting the node it returned leaves the iteration where it was |
| `AdList.DeleteWhileIterating` | server/src/cluster.c:947-951 | A loop that deletes nodes it was handed visits every original node once in order and leaves exactly the others |

## Left out

Cluster bus:

- Handshakes, gossip, FORGET, RESET and node restarts: nodes keep the table they know, so epochs never start over.
- Timing: delays, ranks and timeouts of elections are nondeterministic; only the guards that read the configuration are kept.
- ClusterElection.ElectionSafety: one direction. At or above the bound a run may elect one node or two, so what stands beside it is a run with two at the bound itself, ClusterSplitVote.SplitVote, and not an equivalence.
- Epochs are natural numbers: the wrap-around of a 64-bit epoch is not modelled.
- A node is either a master or a replica; the third case of neither flag does not arise.
- ClusterTable.Cluster.UpdateSize: the failure flags that the same loop counts for the cluster state.
- Flags for replica migration, failure reports and the FAIL message; they never touch epochs, votes or slots.
- The words for migrating and importing slots in nodes.conf, and its other fields.
- HotGroup.CoalescingLosslessIff: writes that depend on the old value, such as INCR or APPEND, which keeping the last one is not meant to preserve; the connection to the other nodes and the receiver's rule for time stamps.
- The 16-byte width of the time stamp in a forwarded command: it travels as a number here.

Append-only file:

- AofHandoff.StepKeeps: the rewrite is modelled on values, since it is a protocol of two processes; the buffer it moves is the class AofBuffer.RewriteBuffer, and one Send is one partial write.
- The translation of EXPIRE and SET with PX into absolute times: a write is the command after it.
- fsync, the choice of when to flush, and disk errors while flushing; a flush moves any prefix.
- AofHandoff.LoadingRestoresTheDataset: that a snapshot rebuilds its dataset is a hypothesis here; AofDataset.StringsAndListsComeBack discharges it for strings and lists, written by SET, DEL and plain pushes and pops.
- The RDB preamble, expiry times and the commands that rebuild other types than strings and lists.
- A BGREWRITEAOF inside a MULTI.
- AofFormat.LoadAppendOnlyFile: what the command table says of a name is a parameter, and a negative length, which makes the allocation fail, counts as an exit.

Blocking operations:

- Clients and queues are values in maps keyed by client, not objects with list nodes; a client stands in a queue at most once, so removing it by value and by node are the same.
- One database: keys of several databases are different keys.
- Streams, modules, WAIT and paused clients: they are served by other rules. Of a sorted set only its cardinality is kept.
- BlockingServer.Server.ServeClientBlockedOnList: replies, propagation and key-space events beyond the reply itself.
- The queries a client runs after it was unblocked, and swapping databases.

ACL rules:

- AclUser.User.SetUser: that a rule about a password or a pattern is refused because of the passwords or patterns the user has (a password to remove that is not there, a pattern after allkeys) is not modelled.
- Passwords, key and channel patterns and other flags: rules about them are checked for their form and leave the command rights alone.
- AclFile.FileRoundTripIff: the command rights only; a user's other words are taken to be rules that leave them alone. Users in redis.conf, whose lines are split with quotes, are not modelled.
- AclUser.User.GetCommandBit: the 64-bit words of the bitmap are taken byte by byte in little-endian order, which is also what memset, memcpy and memcmp see.
- Acl.ReachableRoundTrip: the command table is fixed; loading a module between description and replay is not modelled. The ALLCOMMANDS flag itself is not rebuilt, only what it allows.

Bit operations:

- Popcount.RedisPopcount: the table of 256 counts is taken as the function it tabulates, and words as little-endian; the count does not depend on that.
- BitField.HandleWrap: masks of high bits are written as remainders and differences of powers of two.
- Parsing of the arguments, the growing of the string before writes and the loop over several operations, each of which is one call of Execute or Get.
- Signed overflow in C, where the code computes a difference it may not use, is taken as two's complement wrap-around.

Linked lists:

- AdList.List.Join: callbacks for copying, freeing and matching values, and failing allocations; the value of a node is fixed when it is made.
- AdList.DeleteWhileIterating: iteration from the head; from the tail it is the mirror image.
