# RedRock: models and proofs

This project models the parts of RedRock, a fork of Redis 6, whose correctness cannot be
seen in one function, and proves what they promise over all inputs and all runs.

- **Cluster bus** (`Cluster*.dfy`). `ClusterView` holds one node's view of the cluster and the
  packet handlers as functions on it. `ClusterState` is the same state as the server keeps it
  (slot bitmaps, slot counters, replica arrays), changed in place, with every method proved to
  act on the view as the function does. `ClusterRules` says of each handler what it does to the
  view, without the functions that do it, and what an ack on the wire answers. `ClusterProtocol` puts views and a bag of packets in
  flight together into a transition system. On them rest epoch domination (`ClusterEpochs`),
  election safety (`ClusterElection`), the exact condition for slot claims to converge (`ClusterClaims`), and two
  concrete runs that show what election safety needs: one in which an epoch is won twice
  (`ClusterDoubleWin`), one in which an epoch is won without a vote (`ClusterStaleAck`).
- **Append only file** (`Aof*.dfy`). The text format and its loader, with every cut of a file
  considered; the logging of commands with their times to live, also in plain numbers
  (`AofTimes`); the snapshot a rewrite starts
  with (`AofSnapshot`) and the parent/child handshake that completes it (`AofRewrite`); the live
  log through short writes, failed truncations and whole rewrites (`AofLive`); the splitting of
  large objects into commands.
- **ACL** (`Acl*.dfy`). `ACLSetUser` as an interpreter of rule texts, what each text does to a
  user (`AclRules`), `ACLDescribeUser` as the printer, and their round trip for every user that any rules can build, as a list of rules and
  as the line of text that ACL LOAD splits again (`AclText`).
- **Blocking operations** (`Blocked*.dfy`). The index between clients and keys, the serving
  loop and its termination, one pass in full (`BlockedFair`), which element each client gets and
  where the others end (`BlockedShares`), what the commands do themselves (`BlockedCommands`), and
  whole runs: who can be left waiting (`BlockedRun`), and in which order clients are served
  (`BlockedOrder`).
- **Bit operations** (`BitCount`, `BitPos`, `BitOp`, `BitField`). Word-parallel code against
  bit-by-bit definitions, and the overflow checks of BITFIELD against arithmetic.
- **Foundations**. The slot-to-key index (`SlotKeys`), background jobs (`BackgroundJobs`), the
  pointer list (`LinkedList`), CRC64 and the DUMP footer (`Crc64`).

Code that the server runs by changing things step by step is a method or a class method here,
proved equal to a function; the theorems are about the functions and about runs of them.
`hide` statements at the top of a proof only keep definitions out of it.

## What the code does not do

Where the code departs from what it says of itself, the model follows the code, and a lemma
gives the exact condition.

- Two replicas can win the same epoch (`ClusterDoubleWin.DoubleWin`), although the comment at
  src/cluster.c:1065-1067 says an epoch has one winner: a replica that has just won and become
  a master may vote in the epoch it won. With one electorate per epoch it cannot happen.
- Acks that arrive after a replica has given up an election and before it asks again are counted
  for the next one, which it can win although nobody voted in it (`ClusterStaleAck.StaleWin`).
- The order in which a node hears claims to a slot can decide who it takes for the owner, in three
  ways: the first owner has stopped claiming the slot and moved to a later epoch, as after a
  reshard (`ClusterClaims.ReshardRefused`); a claim is older than what was heard of its claimant
  (`ClusterClaims.OldClaimStays`); a claim under the node's own epoch makes it take a new one
  (`ClusterClaims.CollisionKeepsSlot`). These are all of them (`ClusterClaims.AgreeExactly`).
- A claim for a free slot kills a replica that does not know its master
  (`ClusterView.UpdateSlotsDies`).
- A file cut in the middle of a command inside MULTI is truncated after the last whole command,
  not before the MULTI. Later commands are lost at the next load until an EXEC comes along, and
  that EXEC runs the half transaction after all (`AofLoader.LaterCommandsSurvive`,
  `AofLoader.LaterCommandsLost`, `AofLoader.HalfTransactionRuns`).
- A rewrite drops a time to live of -1, the value it takes for none
  (`AofSnapshot.SnapshotRebuilds`, `AofSnapshot.SentinelLost`, `AofLive.SentinelReached`).
- A SET whose option value spells a unit, such as `EX px EX 1`, is executed and then trips the
  assert in the logging code (`AofFeed.ScanIsSound`); SET with KEEPTTL is logged as a plain SET
  (`AofFeed.KeepTtlReplays`).
- A described user comes back with the ALLCOMMANDS flag set whenever every bit is set
  (`AclRoundTrip.RebuiltIsSame`); no permission changes (`AclRoundTrip.SamePermissions`). The
  line that describes it brings a rule back only if the rule holds no blank, quote or NUL
  (`AclText.LineRebuilds`, `AclText.PatternLost`).
- The bitmap check at src/acl.c:484-497, meant never to abort, does abort once a command that
  a user may run has left the table (`AclRoundTrip.PredictionIsExact`,
  `AclRoundTrip.UnloadedCommand`).
- A client can wait for a list that is there: SORT and GEORADIUS with STORE overwrite a key
  without telling anybody, and RENAME and RESTORE say nothing about streams. The condition is
  exact (`BlockedRun.AnnouncedExactly`, `BlockedRun.NobodyWaitsInVain`,
  `BlockedRun.SortStoreTellsNobody`).
- Clients can be overtaken where clients of several types wait for one key, as the source admits
  (`BlockedOrder.Overtaken`); when a pass does that is exact (`BlockedFair.OthersTurned`). While
  all are of one type they are served in the order in which they blocked
  (`BlockedOrder.FirstComeFirstServed`).
- BITFIELD SET of a number far below the minimum saturates to the maximum
  (`BitField.SignedSet`), and a wrapping underflow is reported as an overflow
  (`BitField.UnsignedExact`, `BitField.SignedExact`), against the comment at
  src/bitops.c:265-282.

## Model

| member | source | states |
|---|---|---|
| `ClusterElection.ElectionSafety` | src/cluster.c:3017-3186 | in every run in which each epoch has one electorate, a candidate counts at least that many masters and counts acks only after its request, no two replicas win the same epoch |
| `ClusterElection.InvariantHolds` | src/cluster.c:2777-2878 | in every such run: one vote per voter and epoch, every counted ack belongs to the current election, every win rests on a quorum of votes |
| `ClusterElection.QuorumsMeet` | src/cluster.c:3020-3020 | two quorums of one electorate share a voter |
| `ClusterElection.VoteEpoch` | src/cluster.c:2795-2811 | a vote is cast in the epoch of its request and only if the voter's last vote is older |
| `ClusterElection.AskKeeps` | src/cluster.c:3153-3165 | a new election keeps the invariant: its epoch is newer than any vote the replica ever received |
| `ClusterElection.FailoverFrame` | src/cluster.c:3017-3186 | what the failover handler does to the election state, action by action |
| `ClusterDoubleWin.DoubleWin` | src/cluster.c:1065-1067 | a run of 14 steps from a plain start at the end of which replicas 4 and 5 have both won epoch 4 |
| `ClusterStaleAck.StaleWin` | src/cluster.c:3087-3165 | a run from a plain start at the end of which replica 4 has won epoch 5 and no node has voted in an epoch later than 4 |
| `ClusterEpochs.EpochDomination` | src/cluster.c:1728-1741 | in every state of every run a node's current epoch is at least every epoch it has recorded, and a packet's header is at least every epoch the packet carries |
| `ClusterEpochs.AssignedEpochIsNew` | src/cluster.c:1040-1057 | an epoch assigned by bump or collision handling is above every epoch the node has recorded |
| `ClusterEpochs.NextEpochIsNew` | src/cluster.c:996-1009 | the next epoch is above all recorded ones |
| `ClusterEpochs.OneSideMoves` | src/cluster.c:1105-1120 | of two masters that record one epoch for both, exactly the one with the smaller name moves |
| `ClusterEpochs.CollisionDominated` | src/cluster.c:1105-1120 | collision handling keeps epoch domination |
| `ClusterEpochs.FailoverDominated` | src/cluster.c:3017-3186 | the failover handler keeps epoch domination |
| `ClusterEpochs.AssignDominated` | src/cluster.c:4742-4777 | so does an epoch set by hand |
| `ClusterEpochs.PacketDominated` | src/cluster.c:1663-2133 | handling any packet keeps epoch domination |
| `ClusterClaims.AgreeExactly` | src/cluster.c:1558-1652 | for every slot and any set of claims, one per claimant and under distinct epochs: all orders in which each is heard, with any repeats and UPDATE packets between, lead to the same owner exactly when no claim to the slot exceeds its first owner, or that owner neither lingers nor escapes and no claim to the slot is out of date; and who the owner is |
| `ClusterClaims.OrdersDiffer` | src/cluster.c:1581-1617 | otherwise two orders, each with every claim once, that end with different owners |
| `ClusterClaims.FreshAgreement` | src/cluster.c:1592-1594 | for claims that are not out of date and not under this node's epoch the condition is: the first owner has not stopped claiming the slot under an epoch that the greatest claim to it exceeds before but not after the owner's own claim |
| `ClusterClaims.ClaimsConverge` | src/cluster.c:1558-1652 | if moreover every claimant claims the slots it owns, two nodes that start alike and hear the same claims end with the same slot table, each slot with its greatest-epoch claimant, or with a first owner that is no claimant and that no claim exceeds |
| `ClusterClaims.ReshardRefused` | src/cluster.c:1592-1594 | a reshard followed by a new epoch of the old owner: of two orders one never accepts the move |
| `ClusterClaims.OldClaimStays` | src/cluster.c:1737-1741 | an out-of-date claim to a free slot: whoever comes first gets it |
| `ClusterClaims.CollisionKeepsSlot` | src/cluster.c:1105-1120 | a collision of epochs lets this node keep a slot that a claim heard earlier would have taken |
| `ClusterClaims.ClaimsSettle` | src/cluster.c:1558-1652 | after any sequence of claims the node has survived, and a slot belongs to its first owner or to a claimant with an epoch above that owner's, under a recorded epoch that no claim heard exceeds |
| `ClusterClaims.SettleUpdate` | src/cluster.c:2098-2119 | an UPDATE that passes a claim on keeps that, whether it is applied or dropped |
| `ClusterClaims.ClaimStep` | src/cluster.c:1947-1971 | the effect of one claim on every slot and every recorded epoch, also on this node's own when it collides |
| `ClusterClaims.RebindRaisesEpoch` | src/cluster.c:1592-1617 | a packet moves a bound slot only to a node recorded under a greater epoch |
| `ClusterClaims.CleanSlotsEffect` | src/cluster.c:1952-1971 | the test that skips the scan never skips a change |
| `ClusterView.ProcessPacket` | src/cluster.c:1663-2133 | every packet keeps the view sound: replicas own nothing, owners and masters are known |
| `ClusterView.UpdateSlots` | src/cluster.c:1558-1652 | a claim keeps the view sound and touches neither epochs nor the election |
| `ClusterView.UpdateSlotsDies` | src/cluster.c:1574-1640 | the NULL dereference happens exactly for a replica without a known master that is told of a free slot |
| `ClusterView.HandleFailover` | src/cluster.c:3017-3186 | the failover handler keeps the view sound |
| `ClusterView.VoteIfNeeded` | src/cluster.c:2777-2878 | a vote changes only the epoch of the last vote; for when it is given see ClusterRules.VoteExactly |
| `ClusterView.DelNode` | src/cluster.c:933-960 | forgetting a node keeps the view sound |
| `ClusterView.ExecuteGood` | src/cluster.c:4234-4809 | a CLUSTER command keeps the view sound exactly when it hands no slot to a replica |
| `ClusterView.SetSlotGood` | src/cluster.c:4411-4455 | the same for SETSLOT NODE |
| `ClusterView.ReplicaOwnsNothing` | src/cluster.c:3975-3991 | in a sound view a replica owns no slot, so the asserts of clusterSetMaster hold |
| `ClusterRules.VoteExactly` | src/cluster.c:2777-2878 | a request is granted exactly by a master with a slot, if the request is not older than the voter's epoch, no vote was cast in its epoch, its sender replicates a known node held for failed or forces the ack, the time test passes, and no claimed slot is held under a greater config epoch; the view then and otherwise, in full |
| `ClusterRules.VoteChanges` | src/cluster.c:1663-2133 | whatever the packet, the epoch of the last vote changes exactly then, to that of the request |
| `ClusterRules.AckExactly` | src/cluster.c:2750-2761 | the ack goes to the sender of the request under its epoch, exactly then and once |
| `ClusterRules.AckAnswersRequest` | src/cluster.c:2816-2833 | in every state of every run each ack on the wire answers a request that its sender might vote for when it got it, so it held the master of the candidate for failed or was forced |
| `ClusterRules.AckCounts` | src/cluster.c:2073-2086 | a vote is counted exactly if it comes from a master with a slot and is not older than the election |
| `ClusterRules.FailMarks` | src/cluster.c:2028-2050 | word of a failure marks that node, never this one |
| `ClusterRules.OnlyCandidatesAct` | src/cluster.c:3045-3085 | the failover handler does nothing unless this node replicates a node with slots that is failed, or the failover is manual, and its data are fresh enough |
| `ClusterRules.CandidateActs` | src/cluster.c:3087-3186 | otherwise it starts afresh, waits, asks for votes in an epoch of its own, or, with more than half of the masters, takes every slot of its master, and when it does which |
| `ClusterRules.RequestCarries` | src/cluster.c:2315-2352 | what a replica sends carries the config epoch and the slots of its master |
| `ClusterRules.ClaimExactly` | src/cluster.c:1558-1652 | which slots a claim moves; this node follows the claimer exactly if it or its master lost the last slot; otherwise exactly the keys of the slots it has just lost go |
| `ClusterRules.RoleExactly` | src/cluster.c:1911-1945 | a node that turns replica loses its slots and follows the node it names, if known; one that turns master follows nobody |
| `ClusterRules.BumpExactly` | src/cluster.c:1040-1057 | an epoch is taken exactly if this node has none or a greater one is known |
| `ClusterRules.AddSlotsExactly` | src/cluster.c:4315-4364 | ADDSLOTS takes all the slots if all are free, else none |
| `ClusterRules.DelSlotsExactly` | src/cluster.c:4315-4364 | DELSLOTS frees all if all are taken, else none |
| `ClusterRules.SetSlotExactly` | src/cluster.c:4411-4455 | when SETSLOT NODE is refused, and all that it does otherwise |
| `ClusterRules.TakeoverExactly` | src/cluster.c:4723-4731 | TAKEOVER puts a replica in the place of its master |
| `ClusterRules.ReplicateExactly` | src/cluster.c:4616-4652 | REPLICATE is accepted exactly from a replica, or a master without slots and keys, towards a known master other than itself |
| `ClusterRules.MarkExactly` | src/cluster.c:4365-4406 | who may mark a slot as migrating or importing, and the marks then |
| `ClusterRules.HandEpochExactly` | src/cluster.c:4742-4777 | an epoch is set by hand exactly on a node that is alone and has none |
| `ClusterRules.ForgetExactly` | src/cluster.c:4596-4619 | no slot, master, import or migration names a forgotten node, and nothing else changes |
| `ClusterProtocol.NextWf` | src/cluster.c:1663-2133 | every step of the system keeps every view sound |
| `ClusterState.Cluster.constructor` | src/cluster.c:722-750 | a fresh node is valid: empty bitmap, no slots, no replicas |
| `ClusterState.Cluster.AddSlot` | src/cluster.c:3748-3753 | the slot is bound unless it is taken; bitmap, counter and table agree whoever the new owner is, and the state stays valid exactly when that is a master or nothing was bound |
| `ClusterState.Cluster.DelSlot` | src/cluster.c:3758-3765 | the slot is unbound, its assert holds, bitmap and counter agree |
| `ClusterState.Cluster.DelNodeSlots` | src/cluster.c:3769-3779 | exactly the slots of the node are unbound, and their number is returned |
| `ClusterState.Cluster.RemoveSlave` | src/cluster.c:847-864 | the replica leaves the array, the order of the others stays |
| `ClusterState.Cluster.AddSlave` | src/cluster.c:866-878 | the replica is appended unless it is there |
| `ClusterState.Cluster.SetNodeAsMaster` | src/cluster.c:1531-1545 | acts on the view as the function does |
| `ClusterState.Cluster.SetMaster` | src/cluster.c:3975-3991 | this node becomes a replica, listed once by its new master only; both asserts hold |
| `ClusterState.Cluster.ClaimSlots` | src/cluster.c:1581-1618 | the scan binds exactly the claimed slots that are free or held under a smaller epoch |
| `ClusterState.Cluster.UpdateSlotsConfigWith` | src/cluster.c:1558-1652 | acts on the view as the function does, bitmaps, counters and replica lists in agreement |
| `ClusterState.Cluster.ReplaceMaster` | src/cluster.c:2979-3007 | all slots of the old master change hands |
| `ClusterState.Cluster.HandleSlaveFailover` | src/cluster.c:3017-3186 | one call of the failover handler acts on the view, bitmaps and lists in agreement, and reports its action as the function does |
| `ClusterState.Cluster.GetMaxEpoch` | src/cluster.c:996-1009 | the result is the maximum of all recorded epochs and the current one |
| `ClusterState.Cluster.BumpConfigEpoch` | src/cluster.c:1040-1057 | acts on the view as the function does |
| `ClusterState.Cluster.SetConfigEpoch` | src/cluster.c:4742-4777 | accepted exactly for a node that knows no other and has no epoch; acts on the view as the function does |
| `ClusterState.Cluster.HandleConfigEpochCollision` | src/cluster.c:1105-1120 | acts on the view as the function does |
| `ClusterState.Cluster.SendFailoverAuthIfNeeded` | src/cluster.c:2777-2878 | grants or refuses as the function does, slot by slot, which is when ClusterRules.VoteExactly says |
| `ClusterState.Cluster.SwitchRole` | src/cluster.c:1911-1945 | acts on the view as the function does |
| `ClusterState.Cluster.ProcessPing` | src/cluster.c:1850-2025 | acts on the view as the function does |
| `ClusterState.Cluster.ProcessUpdate` | src/cluster.c:2098-2119 | acts on the view as the function does |
| `ClusterState.Cluster.ProcessPacket` | src/cluster.c:1663-2133 | acts on the view as the function does |
| `ClusterState.Cluster.FreeNode` | src/cluster.c:889-911 | replicas are orphaned, the node leaves its master's array |
| `ClusterState.Cluster.DelNode` | src/cluster.c:933-960 | no slot, importing or migrating entry and no array mentions the node any more |
| `AofFormat.AtoiDec` | src/aof.c:782-796 | a printed number reads back as itself whatever follows |
| `AofFormat.CatGenericCommand` | src/aof.c:522-545 | the command is appended as one array of bulk strings |
| `AofFormat.PrintedText` | src/aof.c:522-545 | the text of one command, character by character |
| `AofLoader.ReadPrintedCommand` | src/aof.c:780-811 | a printed command reads back as its binary-safe arguments and reading stops right after it |
| `AofLoader.CutCommand` | src/aof.c:870-899 | a command cut anywhere is a read error at end of file, never bad format |
| `AofLoader.LoadCut` | src/aof.c:705-913 | for every cut of a printed log the loader runs exactly the whole commands outside an open MULTI and stops at a command boundary |
| `AofLoader.RoundTrip` | src/aof.c:705-913 | a whole log loads to the end and runs exactly its commands |
| `AofLoader.StrictLoad` | src/aof.c:870-896 | with aof-load-truncated off every file loads as with it on, but a short read is fatal |
| `AofLoader.ForeignText` | src/aof.c:780-836 | an unknown command and text that is no command end the load, after what stands before them has run |
| `AofLoader.RevertPoint` | src/aof.c:853-857 | the recorded offset is where the open MULTI starts; what is before it has run what the log has run |
| `AofLoader.FileIsPrefix` | src/aof.c:870-883 | after a tolerated short read the file is the print of a prefix of the log |
| `AofLoader.LaterCommandsSurvive` | src/aof.c:844-883 | commands appended after a truncation survive the next load exactly when the cut did not fall inside a command within MULTI |
| `AofLoader.LaterCommandsLost` | src/aof.c:844-883 | otherwise the second load runs none of them up to the first EXEC among them; if there is one it runs the half transaction, then the later commands before that EXEC, then what the rest runs by itself |
| `AofLoader.HalfTransactionRuns` | src/aof.c:844-883 | a file cut inside the third command of a transaction, and two later logs: one lost, one that runs the half transaction |
| `AofLoader.ReadArguments` | src/aof.c:789-811 | the loop reads what the function reads |
| `AofLoader.LoadAppendOnlyFile` | src/aof.c:705-913 | the loop over the file computes the loading function |
| `AofSnapshot.SnapshotRebuilds` | src/aof.c:1302-1388 | the snapshot of every dataset of strings, lists, sets and hashes, in every order of its keys, members and fields, can be loaded, and replaying it on an empty server gives the dataset exactly when no key has a time to live of -1 or an aggregate without elements |
| `AofSnapshot.SnapshotReplays` | src/aof.c:1302-1388 | what replaying the snapshot from any database on gives, entry by entry |
| `AofSnapshot.ValueReplays` | src/aof.c:1336-1362 | the SET, or the batches of RPUSH, SADD or HMSET, for a value rebuild it where the key is not there |
| `AofSnapshot.SentinelLost` | src/aof.c:1364-1370 | a dataset that does not come back |
| `AofLive.SentinelReached` | src/expire.c:505-515 | a run of two commands that reaches it |
| `AofSnapshot.RewriteAppendOnlyFile` | src/aof.c:1302-1388 | the loops over databases, keys and elements write the print of the snapshot |
| `AofRewrite.RewriteComplete` | src/aof.c:1442-1474 | in every interleaving of feeds, partial writes, partial reads and the stop/ack exchange, a finished rewrite is the snapshot followed by every difference, once and in order |
| `AofRewrite.NextConserves` | src/aof.c:96-195 | every step keeps: received, in the pipe and in the blocks together are what was fed |
| `AofRewrite.BytesMove` | src/aof.c:96-170 | each step moves as many bytes as it says |
| `AofRewrite.FinishExactly` | src/aof.c:1455-1474 | at every point of every run the rewrite can still be completed, to the snapshot and all that was logged, exactly if the child lives and no ack was lost |
| `AofRewrite.CanFinish` | src/aof.c:1455-1474 | the steps that do it |
| `AofRewrite.NeverFinishes` | src/aof.c:1508-1528 | once the child is gone or the ack lost no steps do |
| `AofRewrite.RewriteBuffer.Append` | src/aof.c:126-170 | the blocks hold the old text and then the new one, no block over its size |
| `AofRewrite.RewriteBuffer.Size` | src/aof.c:80-91 | the number of bytes in all blocks |
| `AofRewrite.RewriteBuffer.WriteDiff` | src/aof.c:96-123 | the bytes written are exactly those removed, from the front, and it stops only when told to, when nothing is left or when the pipe is full |
| `AofRewrite.RewriteBuffer.WriteAll` | src/aof.c:175-195 | succeeds exactly when every write takes its whole block, and then all of it is written in order |
| `AofFeed.TranslationReplays` | src/aof.c:584-648 | replaying the logged form of a command does to all databases what the command did; what that is in plain numbers is in AofTimes |
| `AofTimes.ExpireSets` | src/expire.c:489-545 | EXPIRE n sets now + 1000 n, PEXPIRE now + n, EXPIREAT 1000 n, PEXPIREAT n, in whatever letters, on the key if it is there and on nothing else |
| `AofTimes.SetExSets` | src/t_string.c:68-114 | SETEX stores the value until now + 1000 n, PSETEX until now + n |
| `AofTimes.SetSets` | src/t_string.c:68-114 | SET with EX n or PX n, NX or XX anywhere around it, stores the value until now + 1000 n or now + n |
| `AofTimes.PlainSetSets` | src/t_string.c:68-114 | SET without options leaves no time to live |
| `AofTimes.ExpireLogged` | src/aof.c:599-602 | the text logged for EXPIRE, PEXPIRE and EXPIREAT: PEXPIREAT, the key and that time in milliseconds, behind a SELECT exactly if the database changes |
| `AofTimes.SetExLogged` | src/aof.c:603-610 | for SETEX and PSETEX: SET, the key, the value, then PEXPIREAT with that time |
| `AofTimes.SetLogged` | src/aof.c:611-626 | for SET with EX or PX: the three words without options, then PEXPIREAT with that time |
| `AofTimes.OthersLogged` | src/aof.c:611-632 | every other command as it came; a SET with conditions only without them |
| `AofFeed.ScanFollowsParse` | src/aof.c:611-626 | the logging loop finds the option the command parser accepted |
| `AofFeed.ScanIsSound` | src/aof.c:611-626 | the assert on EX and PX holds for an accepted SET exactly when no option value spells the other unit |
| `AofFeed.ScanAssertFails` | src/aof.c:611-626 | an accepted SET on which it fails |
| `AofFeed.KeepTtlReplays` | src/aof.c:611-626 | replaying SET KEEPTTL is right exactly when there is no time to live |
| `AofLive.LiveLogRebuilds` | src/aof.c:338-520 | while the file is on, at every point of every run of commands, flushes, forks, exchanges with the child, failures and installed rewrites, loading file and buffer and replaying gives the current dataset |
| `AofLive.FlushKeeps` | src/aof.c:394-494 | no flush, full or short, with or without a successful truncation, changes what file and buffer say together; the file grows by what was written unless a short write was removed |
| `AofLive.RewriteEnds` | src/aof.c:1685-1802 | a rewrite that ends well leaves the file on, nothing to be written and the print of the child's log in it; a failed one leaves the file alone |
| `AofLive.RunRebuilds` | src/aof.c:584-648 | a command and what is logged for it lead to the same data |
| `AofLive.NextKeeps` | src/aof.c:1695-1802 | every step keeps the log faithful: a fork writes the snapshot of the data, the child's file and the pipes lose nothing, and the file that is installed is the one the protocol delivers |
| `AofLive.AppendOnlyFile.Feed` | src/aof.c:584-648 | the buffer, and the rewrite buffer while a child runs, grow by the text that the lemmas of AofTimes spell out |
| `AofLive.AppendOnlyFile.FindExpire` | src/aof.c:611-626 | the loop computes the scan |
| `AofLive.AppendOnlyFile.Flush` | src/aof.c:338-520 | does to file, size and buffer what AofLive.FlushKeeps is about |
| `AofBatch.Rewrite` | src/aof.c:935-965 | the output is the print of the batches: every declared count is the number of strings that follow |
| `AofBatch.BatchSizes` | src/aof.c:969-1012 | no command exceeds the limit, none is empty |
| `AofBatch.ListRebuilt` | src/aof.c:935-965 | replaying the batches pushes the list in its order |
| `AofBatch.SetRebuilt` | src/aof.c:969-1012 | replaying the batches adds exactly the members |
| `AofBatch.HashRebuilt` | src/aof.c:1111-1135 | no pair is torn apart by a command boundary |
| `AofBatch.PairsRebuild` | src/aof.c:1111-1135 | the pairs of a hash in any order rebuild it |
| `AofBatch.BatchesLoad` | src/aof.c:705-913 | loading the rewritten object runs exactly the batches |
| `AclRoundTrip.DescriptionRebuilds` | src/acl.c:507-551 | for every user made by any rules, the printed texts are all accepted in order by a fresh user and rebuild it, but for the ALLCOMMANDS flag |
| `AclRoundTrip.SetAllKeeps` | src/acl.c:700-871 | the user invariant over every sequence of rule texts |
| `AclRoundTrip.SetUserKeeps` | src/acl.c:700-871 | the user invariant over one rule text, accepted or not |
| `AclRoundTrip.PredictionIsExact` | src/acl.c:484-497 | the bitmap of the fake user equals the user's exactly when every bit without a command in the table agrees with the bit of future commands |
| `AclRoundTrip.PredictionHolds` | src/acl.c:484-497 | so for a user made by rules over the table the panic cannot happen |
| `AclRoundTrip.UnloadedCommand` | src/acl.c:484-497 | a user for whom it does once the command has left the table |
| `AclRoundTrip.CommandsRebuilt` | src/acl.c:407-499 | the command rules rebuild bitmap and subcommands from any user |
| `AclRoundTrip.CategoryRulesApply` | src/acl.c:433-451 | the category rules are accepted and have the predicted effect |
| `AclRoundTrip.CommandRulesApply` | src/acl.c:453-479 | so are the rules for single commands and subcommands |
| `AclRoundTrip.ParseText` | src/acl.c:700-871 | each printed rule is read back as itself |
| `AclRoundTrip.RebuiltIsSame` | src/acl.c:341-349 | the rebuilt user is the described one exactly unless all bits are set without the flag |
| `AclRoundTrip.FlagComesBack` | src/acl.c:341-349 | a user for which it is not |
| `AclRoundTrip.SamePermissions` | src/acl.c:1037-1069 | no command of the table is allowed to the one and denied to the other |
| `AclRoundTrip.ResetIsFresh` | src/acl.c:861-865 | "reset" makes any user the fresh one |
| `AclRules.WordRules` | src/acl.c:700-733 | on, off, allkeys, resetkeys, nopass and resetpass, in whatever letters: the whole new user |
| `AclRules.AllRules` | src/acl.c:716-727 | allcommands and nocommands: all bits or none, the flag, no subcommands |
| `AclRules.ResetRule` | src/acl.c:861-865 | reset does what resetpass, resetkeys, off and -@all do one after the other, and makes any user the fresh one |
| `AclRules.NoRule` | src/acl.c:866-869 | any text that is no word and begins with no sign is refused |
| `AclRules.AddPassword` | src/acl.c:734-764 | a password is added once at the end and ends nopass; a hash only if it is 64 small hexadecimal digits |
| `AclRules.RemovePassword` | src/acl.c:765-783 | one password goes, the others keep their order and nothing else changes, ENODEV exactly if it was not there |
| `AclRules.RemovedForGood` | src/acl.c:765-783 | no user made by any rules knows a password after its removal |
| `AclRules.PatternRule` | src/acl.c:784-796 | a pattern is added once at the end, EEXIST if all keys are allowed, and "*" allows them |
| `AclRules.CommandExactly` | src/acl.c:797-806 | +cmd and -cmd for every command of the table: its bit and its subcommands, nobody else's; -cmd lowers the flag |
| `AclRules.SubcommandExactly` | src/acl.c:807-846 | +cmd, a bar and a subcommand: when it is refused and why, and the list it ends in otherwise |
| `AclRules.UnknownCommand` | src/acl.c:797-854 | a command that is not in the table is refused |
| `AclRules.CategoryExactly` | src/acl.c:855-860 | +@cat and -@cat: exactly the commands of the category that belong to no module, with their subcommands; every other keeps bit and subcommands; an unknown category is refused |
| `AclUser.AclUser.constructor` | src/acl.c:224-235 | a new user is the fresh one |
| `AclUser.AclUser.SetCommandBit` | src/acl.c:341-349 | one bit changes; clearing one lowers the flag |
| `AclUser.AclUser.SetBitsForCategory` | src/acl.c:357-372 | the loop over the table changes exactly the commands of the category |
| `AclUser.AclUser.CountCategoryBits` | src/acl.c:378-398 | the two counts over the table |
| `AclUser.AclUser.AddAllowedSubcommand` | src/acl.c:594-621 | appended unless listed in any case |
| `AclUser.AclUser.Set` | src/acl.c:700-871 | the rule takes effect as the interpreter says, which is what AclRules says of each text, or its error is returned and nothing changes |
| `AclUser.AclUser.DescribeCommandRules` | src/acl.c:407-499 | the two passes over a fake user print the specified rules |
| `AclUser.AclUser.DescribeUser` | src/acl.c:507-551 | prints flags, passwords, patterns and command rules as specified |
| `AclUser.AclUser.DescribeLine` | src/acl.c:507-551 | returns them joined by blanks |
| `AclText.LineRebuilds` | src/acl.c:1270-1300 | for every user made by any rules, splitting its line gives the rules back exactly when none holds a blank, a quote or a NUL; then they rebuild the user |
| `AclText.SplitUndoesJoin` | src/sds.c:959-1067 | the same for any texts that start with a character that is no blank |
| `AclText.SplitCosts` | src/sds.c:959-1067 | the words of a line, each with a blank, are no longer than the line with one |
| `AclText.PatternLost` | src/acl.c:1270-1300 | the pattern `a +@all` is accepted from a client and lost in the line |
| `AclText.PatternFallsApart` | src/sds.c:959-1067 | what stands behind its blank comes back as a rule |
| `AclText.SplitLine` | src/sds.c:959-1067 | the loops over words and characters compute the function |
| `BlockedRun.NobodyWaitsInVain` | src/blocked.c:498-551 | in every run index and counters are right between any two commands, and no client ever waits for a key that could serve it exactly when every store of the run was announced |
| `BlockedRun.InVainExactly` | src/blocked.c:498-551 | the same from any state between two commands |
| `BlockedRun.AnnouncedExactly` | src/db.c:193-258 | after a command nobody waits in vain exactly when it creates the key, or no waiting client wants the value it stores |
| `BlockedRun.OnlySilentStores` | src/db.c:244-258 | no other command makes a client wait in vain, and such a store only for its own key |
| `BlockedRun.SortStoreTellsNobody` | src/sort.c:572-573 | BLPOP, SET and SORT STORE of one key leave the client blocked on a list it could have |
| `BlockedRun.StoreOk` | src/db.c:244-258 | setKey keeps everything queued that could serve someone, if it was announced |
| `BlockedRun.ReplaceOk` | src/db.c:1000-1002 | so does deleting and adding, always for lists and sorted sets |
| `BlockedRun.ExecuteOk` | src/blocked.c:668-689 | every command leaves every key that could serve someone queued, but for the key of a silent store |
| `BlockedRun.BlockKeeps` | src/blocked.c:580-622 | blocking keeps index and counters, with repeated keys too |
| `BlockedRun.PopOk` | src/t_list.c:689-743 | BLPOP, BRPOP and the sorted set pops block only if no key can serve |
| `BlockedRun.MoveOk` | src/t_list.c:753-780 | BRPOPLPUSH queues a destination it creates |
| `BlockedRun.XAddOk` | src/t_stream.c:1274-1277 | XADD signals whenever a stream client waits |
| `BlockedServe.Handle` | src/blocked.c:498-551 | the loop ends, by (blocked clients, ready keys), with nothing queued and index, counters and queue right |
| `BlockedServe.HandleOk` | src/blocked.c:498-551 | then no key could serve a client that waits for it, unless it could before without being queued |
| `BlockedServe.HandleRound` | src/blocked.c:510-548 | a round that unblocks nobody queues nothing |
| `BlockedServe.ServeOk` | src/blocked.c:236-292 | a pass over the clients of a key leaves nobody whom the key could still serve and queues a key only if it unblocks a client |
| `BlockedServe.ServeKeyOk` | src/blocked.c:510-548 | once a key was handled nobody waits in vain for it, whatever was before |
| `BlockedServe.ServeStreamOk` | src/blocked.c:344-432 | the same for streams |
| `BlockedServe.ServeListOk` | src/t_list.c:638-686 | serving a list client keeps every other key that could serve someone queued, also the destination of a move |
| `BlockedServe.FullTurn` | src/blocked.c:440-475 | the pass for modules turns the list once around and so leaves it as it was |
| `BlockedServe.SignalReady` | src/blocked.c:668-689 | no key is ever queued twice |
| `BlockedFair.PassIs` | src/blocked.c:236-339 | a pass in full: which clients it sees, who of them is answered and in which order, and how the queue stands afterwards |
| `BlockedFair.ServedInOrder` | src/blocked.c:236-339 | a pass answers exactly the clients of its type among those it sees, in order, one reply each, and keeps the rest of their queue |
| `BlockedFair.OthersTurned` | src/blocked.c:248-254 | of another type those it sees go behind those it does not, so that queue keeps its order exactly when it sees none or all of them |
| `BlockedFair.StreamPassIs` | src/blocked.c:344-432 | a pass over a stream answers everybody who has not seen its last entry, in the order of the queue, and the others stay as they stand |
| `BlockedShares.SharesAre` | src/blocked.c:236-339 | one pass: each client that it answers gets the element at its end of what those before it left, the last rest is what the key holds, moved elements stand in front of what their target held, and no other key changes |
| `BlockedShares.SharesByPlace` | src/blocked.c:257-260 | if nobody moves within the list: the i-th answer is element f from the front or b from the back, f and b being how many before took from that end, and the middle is left |
| `BlockedShares.PopsGetElements` | src/blocked.c:236-292 | clients in BLPOP get elements 0, 1, 2 and so on; the rest of the list and of the queue stay, an emptied list goes |
| `BlockedShares.ListStep` | src/t_list.c:638-686 | one list client: its element, its reply, and all keys, for every kind of target |
| `BlockedShares.ZsetStep` | src/t_zset.c:3133-3225 | one sorted set client: the lowest or the highest member, and a set without members goes |
| `BlockedShares.StreamShares` | src/blocked.c:344-432 | a stream client is told what came after the ID it had read, up to the last one |
| `BlockedCommands.PopThenPush` | src/blocked.c:498-551 | in whatever state a run has reached, a client that blocks in BLPOP or BRPOP on a key nobody else waits for gets the first or the last element of what the next push makes, and the rest stays |
| `BlockedCommands.PopExactly` | src/t_list.c:689-743 | a pop takes from the first of its keys that is not empty; another type there is an error |
| `BlockedCommands.PopWaits` | src/t_list.c:689-743 | if all are empty it waits at the tail of the queue of every key, and nothing else changes |
| `BlockedCommands.MoveExactly` | src/t_list.c:575-625 | RPOPLPUSH: the last element, the head of the target, also of the same list; a target of another type is an error |
| `BlockedCommands.MoveWaits` | src/t_list.c:753-780 | without a list BRPOPLPUSH waits for its last element, with its target |
| `BlockedCommands.ReadExactly` | src/t_stream.c:1349-1607 | XREAD BLOCK answers for every stream with newer entries, and waits with the IDs it has read only if there is none |
| `BlockedCommands.ReleasedExactly` | src/blocked.c:169-189 | a released client is in no queue of a key, once in that of clients to go on, and nothing else changes |
| `BlockedCommands.PushExactly` | src/t_list.c:197-228 | RPUSH appends, LPUSH puts in front in reverse, a new key is ready if somebody waits |
| `BlockedCommands.ZAddExactly` | src/t_zset.c:1532-1652 | a member is there once, at the place its score gives it |
| `BlockedOrder.FirstComeFirstServed` | src/blocked.c:478-497 | in every run during which all clients that wait for a key are of one type at a time, they stand in the order in which they blocked and are answered from it in that order |
| `BlockedOrder.ServeHere` | src/blocked.c:236-339 | over a queue of one type a pass answers a prefix and keeps the rest; a pass for another type changes nothing |
| `BlockedOrder.ExecuteJoins` | src/blocked.c:580-622 | a command changes a queue only by its client joining at the tail or leaving |
| `BlockedOrder.HandleFair` | src/blocked.c:498-551 | serving until no key is ready keeps the order of every such queue, also while other keys take clients out of it |
| `BlockedOrder.NewcomerJumpsNobody` | src/t_list.c:689-743 | a client that is served without blocking takes its element from a key for which nobody of its type waits |
| `BlockedOrder.Overtaken` | src/blocked.c:489-497 | BLPOP by client 1, BZPOPMIN by 2, BLPOP by 3, then ZADD: client 3 stands before client 1 |
| `BlockedFair.HandleConserves` | src/blocked.c:498-551 | no element is lost or invented by the serving loop: keyspace and delivered elements together stay the same |
| `BlockedFair.ListConserves` | src/blocked.c:256-280 | each popped element is delivered, moved, or put back |
| `BlockedFair.EndRest` | src/blocked.c:268-275 | putting back at the same end restores the list |
| `Blocked.UnblockKeeps` | src/blocked.c:169-189 | unblocking keeps index and counters and removes the client from the lists of its keys only |
| `Blocked.ServeOneKeeps` | src/blocked.c:236-292 | serving the head of a list leaves exactly its tail |
| `Blocked.RotateKeeps` | src/blocked.c:248-254 | moving the head to the tail keeps index and counters |
| `BlockedServer.BlockedServer.BlockForKeys` | src/blocked.c:580-622 | the loop over the keys computes the function |
| `BlockedServer.BlockedServer.UnblockWaitingData` | src/blocked.c:626-659 | in whatever order the keys come, the client leaves each list and empty lists go |
| `BlockedServer.BlockedServer.UnblockClient` | src/blocked.c:169-189 | computes the function |
| `BlockedServer.BlockedServer.SignalKeyAsReady` | src/blocked.c:668-689 | computes the function |
| `BlockedServer.BlockedServer.ServeListKey` | src/blocked.c:236-292 | on every round the list is there and not empty; computes the function, whose answers and rest BlockedShares.SharesAre gives |
| `BlockedServer.BlockedServer.ServeZsetKey` | src/blocked.c:297-339 | the separate element counter stays right; computes the function |
| `BlockedServer.BlockedServer.ServeStreamKey` | src/blocked.c:344-432 | the iterator survives the removal of its current node; computes the function |
| `BlockedServer.BlockedServer.ServeModules` | src/blocked.c:440-475 | changes nothing if no module has blocked a client |
| `BlockedServer.BlockedServer.HandleClientsBlockedOnKeys` | src/blocked.c:498-551 | computes the function: ends with nothing queued and nobody left whom a queued key could serve |
| `BitCount.RedisPopcount` | src/bitops.c:40-92 | equals the number of one bits for every length and alignment |
| `BitCount.LanesJoin` | src/bitops.c:66-79 | the three steps on a word work on each byte alone |
| `BitCount.Gather` | src/bitops.c:80-86 | seven words add up to at most 224, so the top byte holds the sum |
| `BitCount.BlockCount` | src/bitops.c:54-87 | a block of 28 bytes is counted right |
| `BitPos.RedisBitpos` | src/bitops.c:101-186 | the first matching bit of the zero-padded string, or -1 if a one is sought and there is none |
| `BitPos.WordBit` | src/bitops.c:151-158 | the loaded word has the bits of the padded string |
| `BitPos.LoadSkipped` | src/bitops.c:132-142 | a word equals the skip word exactly when all its bytes are skipped |
| `BitOp.Bitop` | src/bitops.c:627-744 | the result is as long as the longest source, and each of its bits is set exactly if, for AND, every source has it, for OR some, for XOR an odd number, for NOT the one source has not; a source that ends before has none |
| `BitOp.ResultBits` | src/bitops.c:730-744 | the byte-by-byte fold has those bits |
| `BitOp.FastBlock` | src/bitops.c:676-728 | four words of the fast path are 32 bytes of the fold |
| `BitOp.ByteOfOp` | src/bitops.c:676-728 | a word operation works on each byte |
| `BitOp.Lengths` | src/bitops.c:627-654 | the minimum is below every length also when keys are missing, the maximum is exact |
| `BitField.SetUnsignedBitfield` | src/bitops.c:209-222 | the bits of the field become those of the value, no other bit changes |
| `BitField.GetUnsignedBitfield` | src/bitops.c:229-241 | the number the bits spell |
| `BitField.SetThenGet` | src/bitops.c:209-241 | get after set is the value modulo 2^bits; any field beside it is untouched |
| `BitField.SetThenGetSigned` | src/bitops.c:224-263 | get after set is the value reduced to two's complement, the value itself exactly when it fits |
| `BitField.UnsignedExact` | src/bitops.c:288-323 | from a value that fits, overflow is reported exactly when the sum leaves the field; the limit is the sum modulo 2^bits or the nearest bound |
| `BitField.UnsignedTooBig` | src/bitops.c:288-323 | a value that does not fit is always an overflow |
| `BitField.SignedExact` | src/bitops.c:325-375 | the same for signed fields |
| `BitField.SignedSet` | src/bitops.c:325-375 | for SET: overflow is reported exactly when the value does not fit, wrapping reduces it, and otherwise the direction is right exactly unless the room up to the maximum exceeds 64 bits |
| `BitField.SaturatesTheWrongWay` | src/bitops.c:332-345 | the smallest number saturates to 127 in eight bits |
| `SlotKeys.KeyHashSlot` | src/cluster.c:690-709 | the two scans find the hashed part |
| `SlotKeys.HashedWhole` | src/cluster.c:690-709 | a key without '{', without '}' behind it, or with '}' right behind it is hashed whole |
| `SlotKeys.HashedByTag` | src/cluster.c:690-709 | any other key by what stands between them |
| `SlotKeys.SameTag` | src/cluster.c:690-709 | keys with one tag share a slot whatever stands around it |
| `SlotKeys.SlotIndex.Add` | src/db.c:193-205 | the tree holds exactly the entries of the database, the counters count them |
| `SlotKeys.SlotIndex.Delete` | src/db.c:306-318 | the same after a deletion |
| `SlotKeys.SlotIndex.Flush` | src/db.c:1629-1634 | the same after a flush |
| `SlotKeys.SlotIndex.GetKeysInSlot` | src/db.c:1639-1654 | the lexicographically first keys of the slot, in order, as many as asked for or there are |
| `SlotKeys.SlotIndex.DelKeysInSlot` | src/db.c:1658-1677 | ends, having removed exactly the keys of the slot |
| `SlotKeys.PrefixOrder` | src/db.c:1644-1650 | the entries of a slot lie together from the bare prefix on |
| `BackgroundJobs.JobsInOrder` | src/bio.c:145-216 | in every interleaving jobs start in creation order, once each, one after the other, and the running job is at the head of the queue |
| `BackgroundJobs.PendingIsExact` | src/bio.c:219-225 | whenever the lock is free the counter is created minus finished, or one more while a finished job awaits its removal; zero means all are finished |
| `BackgroundJobs.NoLostWakeup` | src/bio.c:171-178 | a sleeping worker has an empty queue |
| `BackgroundJobs.NeverStuck` | src/bio.c:131-216 | while a job is left some thread can move |
| `BackgroundJobs.NextKeeps` | src/bio.c:131-216 | every step of every thread keeps the invariant |
| `LinkedList.List.AddNodeHead` | src/adlist.c:88-106 | a new node in front of the old ones |
| `LinkedList.List.AddNodeTail` | src/adlist.c:114-132 | a new node behind the old ones |
| `LinkedList.List.InsertNode` | src/adlist.c:134-161 | a new node right before or after the given one |
| `LinkedList.List.DelNode` | src/adlist.c:167-180 | the node is gone, all others in place |
| `LinkedList.List.Rotate` | src/adlist.c:330-343 | the last node comes first |
| `LinkedList.List.Join` | src/adlist.c:347-362 | all nodes of the other list follow, the other list is empty |
| `LinkedList.List.SearchKey` | src/adlist.c:290-308 | the first node with the value, or none |
| `LinkedList.List.Sweep` | src/adlist.c:229-240 | iteration from the head that removes only the node just returned visits every element once, in order, and keeps exactly the others |
| `LinkedList.List.SweepBack` | src/adlist.c:229-240 | the same from the tail |
| `Crc64.TableStep` | src/crc64.c:173-181 | a table lookup and a shift are eight bit steps |
| `Crc64.Basis` | src/crc64.c:42-171 | the entries at the powers of two are the listed ones |
| `Crc64.EntryLinear` | src/crc64.c:42-171 | all other entries are sums of these |
| `Crc64.WordSteps` | src/crc64.c:173-181 | up to eight bytes act like one word fed in at once |
| `Crc64.StateInjective` | src/crc64.c:173-181 | two states stay different over any string |
| `Crc64.BurstDetected` | src/crc64.c:173-181 | strings that differ only within eight consecutive bytes never share a CRC |
| `Crc64.ComputeCrc` | src/crc64.c:173-181 | the loop computes the function |
| `Crc64.CreatedVerifies` | src/cluster.c:4817-4844 | every created payload is accepted |
| `Crc64.VersionDecides` | src/cluster.c:4850-4867 | a payload with the right CRC is accepted exactly if its version is at most 9, one of less than ten bytes never |
| `Crc64.Residue` | src/cluster.c:4850-4867 | a footer is accepted exactly when the whole payload has CRC zero |
| `Crc64.DamageRejected` | src/cluster.c:4850-4867 | no copy of an accepted payload damaged within eight consecutive bytes is accepted, wherever the damage is |

## Left out

- Cluster: sockets, gossip, handshake nodes, node addresses, publish messages, the configuration file, clocks and delays (a step is enabled at any time), CLUSTER RESET, crash and restart of a voter.
- Cluster: epochs are unbounded integers, the bitmap in a packet is a set of slots.
- ClusterElection.ElectionSafety: assumes the run is orderly, because without one electorate per epoch it is false, as ClusterDoubleWin.DoubleWin shows, and without counting acks only after the request too, as ClusterStaleAck.StaleWin shows.
- Cluster: when a replica migrates to an orphaned master (the choice is free; the effect is that of Replicate); failure reports, of which the verdict is a free step.
- ClusterClaims.AgreeExactly: no claim is about this node, claimants have one claim each and distinct epochs, no slot is being imported (the code then keeps a slot on purpose), and a replica knows its master (otherwise ClusterView.UpdateSlotsDies says when it survives); an UPDATE tells of its sender nothing but the epoch of that node's own claim.
- ClusterClaims.ClaimsConverge: assumes besides that no claim is older than what was heard of its claimant, that none is under this node's epoch and that a claimant that owns a slot claims it, because without these it is false, as ClusterClaims.AgreeExactly and the three runs show.
- Append only file: the RDB preamble, modules, MULTI in the live log, fsync and its policies other than what they do to the buffer, Lua scripts; expired keys are not deleted by a clock but by commands.
- AofLive.LiveLogRebuilds: a fork is taken only while no key has a time to live of -1, because otherwise it is false, as AofSnapshot.SentinelLost shows, and none holds an aggregate without elements, which the server deletes but a free effect of a command need not.
- Rewriting: sorted sets and streams, whose scores and IDs are text of numbers; integer encodings, which print as the same strings.
- ACL: the hash of passwords is a parameter; the command table is fixed, its IDs are below 1023 and its names contain no '|', no NUL and do not start with '@'; of an ACL file only the rules of a user's line; key patterns are not matched.
- Blocking: modules and consumer groups; timeouts are steps of their own; of a stream only the last ID and the length; SWAPDB; expiration; of a sorted set the order of its members is kept, not the scores.
- BlockedOrder.FirstComeFirstServed: a stream is no queue, as BlockedFair.StreamPassIs says, so answers from streams are not part of the order; their clients still stand in it.
- Blocking: the class keeps each list of clients as a sequence; the pointer operations are those of LinkedList.
- Bit operations: shifts by 64, which C leaves undefined, so signed wrapping and signed reading go up to width 63; the table of bit counts is given by its definition; sizes are unbounded.
- Slot index: the radix tree is a finite ordered set; crc16 is a parameter; values and expires are not part of it.
- Background jobs: what a job does; cancellation of threads; bioWaitStepOfType.
- Linked list: memory, duplication, free and match callbacks, access by index; values are integers.
- RocksDB: values that live on disk are the same abstract values as those in memory.
