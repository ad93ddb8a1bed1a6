# Redis 4.0.0, modelled and proved in Dafny

A model of the parts of the vendored Redis 4.0.0 whose correctness rests on more than one
function: the control plane of Redis Cluster, the append only file, the bit operations, the
doubly linked list under them, the background jobs, and the CRC64 of DUMP payloads.
`dafny verify dfyconfig.toml` checks all of it.

Every module follows the code: same branches, same constants, same error cases. Operations that
change state in place are classes or methods on arrays, each proved against a specification
function; protocols are state machines whose steps are the handlers of the source, with the
network, the clock, system calls and the other process as free choices of the run.

| module | what it models |
|---|---|
| `Prelude`, `Octets` | optional values, node names, quorums, powers of two, bytes, and two facts about finite sets |
| `SlotClaims` | the rule that binds a slot to a claiming master, and what repeated claims settle on |
| `ClusterBus` | a node's records and what each handler does with a packet (`cluster.c` 1055-1070, 1506-1600, 1605-2053, 2190-2250, 2519-2531, 2594-2694, 2794-2997, 3798-3812) |
| `BusLaws` | what each packet does, stated from the packet and the records of its receiver alone |
| `ClaimDelivery` | slot claims delivered as packets |
| `ClusterSystem` | nodes, packets in flight and the history of votes; one step is one handler on one node |
| `EpochBound`, `Election`, `StaleAck`, `Failover` | epochs, elections and what winners become, over whole runs |
| `EpochRepair`, `RepairBound` | what changes a node's own epoch, and why collision repair stops |
| `SlotTable` | the slot array with its per-node bitmaps, updated in place |
| `FailureReports`, `ReportLists` | failure reports, the quorum rule that flags a node as failed, and the linked lists that hold the reports |
| `AofLog`, `AofReplay`, `AofDamage` | the RESP log: encoder, loader, and what a cut or a damaged file loads to |
| `AofRewrite` | lists, sets, sorted sets and hashes written as commands, and run again |
| `AofBuffer`, `AofProtocol`, `AofRecovery` | the rewrite block buffer, the exchange between server and child, and what a restart finds |
| `AofFlush` | writing the buffer to the file with short and failed writes |
| `Crc64Table`, `Dump` | CRC64 and the DUMP payload |
| `Popcount`, `Bitpos`, `Bitfield`, `Bitop` | the bit operations |
| `Adlist` | the linked list and its iterators |
| `Bio` | producers and the worker of background jobs |

## Where the code and its comments differ

- An ACK of an earlier attempt that arrives between scheduling an election and asking for votes is
  counted for the new one. `StaleAck.StaleAckElectsTwo` gives a run with two winners of one epoch.
  The condition is that votes are asked for with a count of zero: `Election.OneWinnerPerEpoch` is
  proved under it alone, and `StaleAck.CountsAreSoundIff` says that it holds throughout a run exactly
  when every count is the number of distinct voters throughout.
- The comment at the end of the loading loop says that an open MULTI ends the server. With
  aof-load-truncated the server starts all the same, and since the loader runs each command as it
  comes and never queues it, what was logged of the open transaction has taken effect
  (`AofReplay.LoadOfPrefix`, `AofReplay.OpenTransactionExits`).
- `checkSignedBitfieldOverflow` claims that its differences cannot overflow when they are used.
  For SET of a very negative value the first one does: `Bitfield.SignedSetGoesWrong` and
  `Bitfield.SignedSetIsExactIff`. With the policy WRAP both checkers return 1 for an underflow
  too, where the comment above them says -1.
- `bioWaitStepOfType` is meant to block until the next job was processed. It can miss the last
  broadcast and block for ever: `Bio.WaitCanBeLost` and `Bio.WaitEndsIff`.
- `clusterDelNodeSlots` is said to return the number of slots deleted. It returns 16384 always.
- `listJoin` with an empty second list leaves a list without a tail; `Adlist.List.Join` says exactly
  when the result is a list.
- The header of `crc64.c` gives 0xffffffffffffffff as the value mixed in at the start. The function
  starts from what it is given, and its callers give 0.

## Model

| member | source | states |
|---|---|---|
| `SlotClaims.EpochOfOwnerNeverDrops` | redis-stable/src/cluster.c:1506-1566 | no claim lowers the epoch of a slot's owner, and a change of owner raises it strictly |
| `SlotClaims.ImportingIsKept` | redis-stable/src/cluster.c:1534-1538 | a slot that is being imported keeps its owner, or stays free, whoever claims it |
| `SlotClaims.ReceiveSettles` | redis-stable/src/cluster.c:1673-1674 | one more claim heard keeps every slot with the greatest claimer heard so far |
| `SlotClaims.SettledTablesAgree` | redis-stable/src/cluster.c:2030-2043 | who has been heard determines the whole table |
| `SlotClaims.ClaimsConverge` | redis-stable/src/cluster.c:1506-1566 | receivers that hear the same masters in any order, any number of times, end with the same table: each slot with its claimer of greatest epoch |
| `BusLaws.VoteIsGrantedIff` | redis-stable/src/cluster.c:2594-2694 | a vote is granted exactly to a replica of a known master that is on record as failed or whose failover is forced, with a claim behind no owner on record, by a master serving slots that is not ahead of the request and has voted neither in that epoch nor too recently about that master; the ACK names that epoch, and nothing else of the voter changes but the epochs noted |
| `BusLaws.AckIsCountedIff` | redis-stable/src/cluster.c:1997-2009 | an ACK is counted exactly if its sender is on record as a master serving slots and is not behind the election |
| `BusLaws.FailFlagsOne` | redis-stable/src/cluster.c:1952-1975 | FAIL flags the node it names unless that is the receiver, and no other |
| `BusLaws.ClaimIsClaimStep` | redis-stable/src/cluster.c:1506-1600 | exactly the claimed slots that are not being imported and are free or bound under a smaller epoch go to the claimer; the receiver becomes its replica, closing open slots if it was a master, exactly if its current master lost a slot and has none left |
| `BusLaws.PingOfMaster` | redis-stable/src/cluster.c:1835-1948 | every field of the receiver after a ping of a master: the slots and the role of the claim, the sender's record, and a new epoch exactly if a master of a greater name published the receiver's own |
| `BusLaws.PingOfSlave` | redis-stable/src/cluster.c:1841-1868 | a ping of a replica changes nothing of the receiver's own record, its epoch in particular; the sender's role is noted and a former master loses its slots |
| `BusLaws.PingIsAnsweredIff` | redis-stable/src/cluster.c:1912-1938 | a ping is answered exactly if it claims a slot known to be served under a greater epoch, and then by one UPDATE about the owner of the least such slot; for a replica only if it publishes other slots than its known master has on record |
| `BusLaws.UpdateIsAppliedIff` | redis-stable/src/cluster.c:2022-2053 | an UPDATE takes effect exactly if it names a known node under a newer epoch; slots and role then follow as if that node had claimed them |
| `ClaimDelivery.PingIsReceived` | redis-stable/src/cluster.c:1871-1895 | processing a ping of a master binds the slots as one received claim does, the shortcut for a claim on record included |
| `ClaimDelivery.DeliveredClaimsConverge` | redis-stable/src/cluster.c:1664-1677 | nodes that process pings of the same masters, in any order and any number of times, end with the same table, each slot with its claimer of greatest epoch |
| `EpochBound.ProcessBounded` | redis-stable/src/cluster.c:1664-1677 | processing any bounded packet keeps every recorded epoch at or below currentEpoch, and so are the packets sent |
| `EpochBound.EpochsBoundedInEveryRun` | redis-stable/src/cluster.c:2022-2038 | in every reachable state, packets in flight included, no configEpoch, vote or election is ahead of the currentEpoch beside it |
| `EpochBound.GetMaxEpoch` | redis-stable/src/cluster.c:946-958 | the loop returns the greatest epoch on record, which some node or currentEpoch has |
| `EpochBound.OwnEpochsAreStrictlyAbove` | redis-stable/src/cluster.c:990-1007 | in every reachable state a unilateral bump or a collision repair takes an epoch above all locally known ones; a bump is refused exactly when the node has the greatest already |
| `Election.RequestFrame` | redis-stable/src/cluster.c:2594-2694 | a granted vote is for the epoch asked for, above lastVoteEpoch, which it becomes, and nothing else of the election data changes; to whom it is granted is `BusLaws.VoteIsGrantedIff` |
| `Election.RunKeepsVoting` | redis-stable/src/cluster.c:2594-2694 | in every run, whatever is counted: one vote per voter and epoch, one ACK in flight per vote not yet counted, and no vote ahead of the candidate's election |
| `Election.VotesIncrease` | redis-stable/src/cluster.c:2620-2690 | over every run each voter votes in strictly increasing epochs |
| `Election.RunKeepsElection` | redis-stable/src/cluster.c:2899-2997 | with elections that start from a count of zero, in every state the counts are the numbers of distinct supporters and every victory is backed by a majority |
| `Election.MajoritiesMeet` | redis-stable/src/cluster.c:2835 | two majorities of the voters share a voter |
| `Election.OneWinnerPerEpoch` | redis-stable/src/cluster.c:2977-2993 | in every state of every run whose elections start from a count of zero, two winners of one epoch are the same node; what a winner becomes is `Failover.WinnerTakesOver` |
| `Election.VotesAreUnique` | redis-stable/src/cluster.c:1997-2009 | in every run a voter grants at most one vote per epoch and every counted ACK is of a voter of its own; the count of an open election that started from zero is its number of voters |
| `StaleAck.AskIsSoundIff` | redis-stable/src/cluster.c:2965-2966 | asking for votes leaves the count equal to the number of supporters exactly when it is zero at that moment |
| `StaleAck.CountsAreSoundIff` | redis-stable/src/cluster.c:2905 | over whole runs, every count is the number of distinct voters in every state exactly when every election starts from a count of zero |
| `StaleAck.StaleAckElectsTwo` | redis-stable/src/cluster.c:2901-2966 | a run with one voter, every election scheduled first, in which a late ACK gives one epoch two winners |
| `Failover.RequestsAreJustified` | redis-stable/src/cluster.c:2832-2969 | in every run each request in flight was sent by a replica that had its master on record as failed, or was told to fail over, and claims exactly the slots of that master under its epoch |
| `Failover.VotesAreDeserved` | redis-stable/src/cluster.c:2594-2694 | the votes granted in a run are exactly those of the requests that deserved one when they arrived |
| `Failover.WinnerTakesOver` | redis-stable/src/cluster.c:2977-2993 | in every run a winner is a replica with a quorum whose master serves slots and is down, or that was told to fail over; it becomes a master under the greater of its epoch and the election's and takes exactly its master's slots, and no other node changes |
| `Failover.TakeoverTakesOver` | redis-stable/src/cluster.c:4522-4529 | a takeover does the same without votes, under a new epoch unless it had the greatest already |
| `Failover.WinnerIsHeard` | redis-stable/src/cluster.c:2794-2810 | whoever processes a ping of the winner binds to it every slot its master had, unless it is importing that slot or knows an owner under an epoch not smaller |
| `EpochRepair.OwnChangesIff` | redis-stable/src/cluster.c:1055-1070 | what changes the epoch a node gives itself, exactly: a collision with a greater master, an UPDATE that knows more of it than itself, winning, bumping, or a command; and it only grows |
| `EpochRepair.RunKeepsState` | redis-stable/src/cluster.c:1664-1677 | in clusters of masters and replicas left alone, nothing recorded or sent names an epoch of a master that it has not reached |
| `EpochRepair.SteadyRunsRepair` | redis-stable/src/cluster.c:1941-1948 | there, whatever pings, updates, failures and elections that nobody wins, epochs change by collision repair alone |
| `EpochRepair.PingRepairsIff` | redis-stable/src/cluster.c:1941-1948 | a ping makes its receiver move exactly if the receiver is a master, the sender names no master and has the greater name, and both have the same epoch, none newer being on record |
| `EpochRepair.QuietMeansDistinct` | redis-stable/src/cluster.c:1055-1070 | in every state of such a run two masters have different epochs exactly if a ping of the greater leaves the smaller where it is |
| `RepairBound.RepairTerminates` | redis-stable/src/cluster.c:1055-1070 | n masters, with any replicas and over every interleaving and delay, make fewer than 2^n - n repairs |
| `RepairBound.OthersNeverMove` | redis-stable/src/cluster.c:1061-1066 | the master with the greatest name keeps its epoch in every such run, and so does every replica |
| `SlotTable.BitLayout` | redis-stable/src/cluster.c:3499-3503 | slot n is bit n mod 8, from the least significant one, of byte n div 8 |
| `SlotTable.PutBitPuts` | redis-stable/src/cluster.c:3499-3517 | setting or clearing a bit of the bitmap changes that slot and no other |
| `SlotTable.ClusterNode.SetSlotBit` | redis-stable/src/cluster.c:3537-3559 | the bit is set and numslots stays the number of set bits |
| `SlotTable.ClusterNode.ClearSlotBit` | redis-stable/src/cluster.c:3562-3567 | the bit is cleared and numslots stays the number of set bits |
| `SlotTable.Table.AddSlot` | redis-stable/src/cluster.c:3578-3583 | a free slot is bound, a bound one refused; slot array and bitmaps stay in agreement |
| `SlotTable.Table.DelSlot` | redis-stable/src/cluster.c:3588-3595 | a bound slot is freed, an unbound one refused; the assertion on the bitmap never fails |
| `SlotTable.Table.DelNodeSlots` | redis-stable/src/cluster.c:3599-3607 | exactly the slots of the node are freed, by names as in `ClusterBus.DelNodeSlots` |
| `SlotTable.Table.DelNode` | redis-stable/src/cluster.c:883-910 | no entry of the slot, importing or migrating table names the removed node |
| `SlotTable.Table.ReplaceMaster` | redis-stable/src/cluster.c:2794-2810 | exactly the slots of the old master go to the winner, by names as in `ClusterBus.ReplaceMaster` |
| `SlotTable.Table.UpdateSlotsConfigWith` | redis-stable/src/cluster.c:1506-1566 | exactly the claimed slots that are not being imported and are free or owned under a smaller epoch are the sender's afterwards, which by names is `SlotClaims.Rebind`; the loop finds out whether the current master lost a slot and lists the slots this node lost with keys in them, in ascending order |
| `ReportLists.Add` | redis-stable/src/cluster.c:712-733 | a sender's report is renewed in place, or a new one appended |
| `ReportLists.Cleanup` | redis-stable/src/cluster.c:742-757 | walking the linked list with an iterator and deleting as it goes leaves exactly the reports that are not stale, in order, and the list well linked |
| `ReportLists.CleanupTurn` | redis-stable/src/cluster.c:752-755 | one turn: the node just returned goes if its report is stale, and the iterator, which had gone past it, stands at the node that followed |
| `ReportLists.Del` | redis-stable/src/cluster.c:769-788 | exactly the sender's report goes, together with the stale ones if there was one |
| `FailureReports.StepKeepsReports` | redis-stable/src/cluster.c:898-906 | after every event reports have distinct senders, all known and none the node itself |
| `FailureReports.MarkNeedsQuorum` | redis-stable/src/cluster.c:1171-1195 | the flag is set by the rule only for a suspected node with a quorum of distinct accusers and no stale report among those counted |
| `FailureReports.ReportsAfter` | redis-stable/src/cluster.c:1335-1355 | which reports about a node are on its list after each event, told from the list before it |
| `FailureReports.FailedIff` | redis-stable/src/cluster.c:1171-1195 | when a node is flagged, exactly: a FAIL message names it, or it is suspected when gossip of a master completes a quorum of distinct nodes that accuse it within two timeouts; its suspicion ends with that |
| `FailureReports.FailNeedsQuorum` | redis-stable/src/cluster.c:1335-1355 | over every run of events, a node flagged without a FAIL message was suspected, and size/2+1 distinct nodes stand behind reports none of which is stale at that time |
| `AofLog.CatAppendOnlyGenericCommand` | redis-stable/src/aof.c:450-473 | the loop appends the RESP encoding of the command |
| `AofLog.ReadArgs` | redis-stable/src/aof.c:711-732 | the argument loop reads what the recursive grammar reads, or stops with its error |
| `AofLog.Load` | redis-stable/src/aof.c:630-811 | the loader runs the commands of `Replay`, keeps the transaction flag, records the offset after the last command, cuts the file there or not, and exits as the source does; on what files is stated by `AofReplay.LoadOfPrefix` and `AofDamage.BrokenFileExits` |
| `AofReplay.WholeCommand` | redis-stable/src/aof.c:696-732 | a command written whole is read back with the rest of the file left |
| `AofReplay.HeaderThenArgs` | redis-stable/src/aof.c:702-705 | the number of a header line counts modulo 2^32: so many arguments are read, or none and a format error when it is zero or negative |
| `AofReplay.CutCommand` | redis-stable/src/aof.c:696-732 | a command cut at any byte is a short read at the end of the file, never a format error |
| `AofReplay.WholeInsideIsGreatest` | redis-stable/src/aof.c:754 | the number of commands kept is the greatest whose encodings fit before the cut |
| `AofReplay.LoadOfWhole` | redis-stable/src/aof.c:630-762 | loading an encoded log runs that log; without aof-load-truncated the server starts exactly when the log leaves no transaction open |
| `AofReplay.LoadOfPrefix` | redis-stable/src/aof.c:757-800 | for every non-empty prefix of a log the commands wholly inside it are run and the offset is the length of their encodings; without aof-load-truncated it loads exactly when cut between commands and outside a transaction |
| `AofReplay.RepairedFileIsWhole` | redis-stable/src/aof.c:777-798 | the truncated file loads again to the same commands with nothing left over |
| `AofReplay.LeavesOpenIff` | redis-stable/src/multi.c:86-101 | a log leaves a transaction open exactly when some MULTI, in any letter case, has neither EXEC nor DISCARD after it |
| `AofReplay.OpenTransactionExits` | redis-stable/src/aof.c:757-759 | a log of whole commands that stops inside a transaction runs them and then ends the server |
| `AofReplay.ClosedTransactionLoads` | redis-stable/src/multi.c:86-101 | any log that ends with EXEC or DISCARD loads whatever the settings |
| `AofDamage.ReplayOfLogThen` | redis-stable/src/aof.c:682-755 | whatever follows a log, the log is run first and what follows is read on its own |
| `AofDamage.BrokenFileExits` | redis-stable/src/aof.c:701-740 | a log followed by bytes without the mark of a command, by an argument without its mark, by a count that is zero, negative, out of range or no number, by a NUL after the mark, or by an unknown command: the log is run, then the server exits whatever its settings, and the file stays as it is |
| `AofDamage.PaddedCountIsRead` | redis-stable/src/aof.c:704 | white space and a plus sign before the count change nothing |
| `AofDamage.NulAtEndIsCut` | redis-stable/src/aof.c:703 | a NUL after the mark in the last line of the file is an unexpected end, not an error |
| `AofDamage.NegativeLengthIsShort` | redis-stable/src/aof.c:719-726 | an argument of negative length is a short read |
| `AofRewrite.VerbIsLookedUp` | redis-stable/src/aof.c:832-978 | the name written for each kind of value is looked up as its command, and as no other |
| `AofRewrite.RewriteItems` | redis-stable/src/aof.c:832-860 | the loop writes the encodings of the chunks, so each header announces the arguments that follow |
| `AofRewrite.ChunksAreEncodable` | redis-stable/src/aof.c:866-908 | every chunk is a well formed command of the right name and key with at most 64 items, and there are as few as that allows, whatever the size of the value |
| `AofRewrite.RunChunks` | redis-stable/src/aof.c:913-978 | running the chunks adds all items in order |
| `AofRewrite.RewriteRebuilds` | redis-stable/src/aof.c:1008-1032 | the bytes written load without error and add exactly the items |
| `AofRewrite.ValueRebuilt` | redis-stable/src/aof.c:832-1032 | adding the items of a value, in any order its iterator gives them, to an empty one gives the value |
| `AofRewrite.RewritePreservesValue` | redis-stable/src/aof.c:832-1032 | writing a list, set, sorted set or hash of any size and loading the bytes gives the key that value |
| `AofBuffer.RewriteBuffer.Append` | redis-stable/src/aof.c:125-166 | the bytes are added at the end, across as many blocks as needed, and the sending handler is installed |
| `AofBuffer.RewriteBuffer.ChildWriteDiffData` | redis-stable/src/aof.c:95-122 | with writes of any size, what was sent followed by what is left is unchanged; nothing is sent after the stop flag; blocks leave only at the front; it goes on until a write takes nothing, or all is sent and the handler is removed |
| `AofBuffer.RewriteBuffer.Size` | redis-stable/src/aof.c:79-90 | the sum over the blocks is the number of bytes held |
| `AofBuffer.RewriteBuffer.WriteTo` | redis-stable/src/aof.c:174-194 | the file grows by a first part of the bytes, and the result is their number exactly when all were written, else -1 |
| `AofProtocol.StepKeepsDiff` | redis-stable/src/aof.c:1053-1063 | every step keeps what the child has, what is in the pipe and what the server holds equal to all that was fed since the fork |
| `AofProtocol.RunKeepsInv` | redis-stable/src/aof.c:1204-1223 | all invariants hold in every reachable state: only a child that has asked is answered, and once; after that the server sends nothing; the temporary file is written when the pipe has been read to its end |
| `AofProtocol.RewriteLosesNothing` | redis-stable/src/aof.c:1438-1547 | at the rename the new file is the snapshot followed by everything fed since the fork, once and in order, the buffer is empty, and the next command selects its database anew |
| `AofProtocol.RewriteCanComplete` | redis-stable/src/aof.c:1438-1547 | from every idle state a rewrite of any snapshot, with any command fed meanwhile, can be completed, and the log is then that snapshot and that command |
| `AofProtocol.FailedRewriteIsHarmless` | redis-stable/src/aof.c:1559-1585 | after a rewrite that fails, log and buffer hold what they held at the fork and all that was fed since, in order, and nothing of the attempt is left |
| `AofProtocol.LogIsComplete` | redis-stable/src/aof.c:1382-1390 | over any number of rewrites the file and the buffer are a snapshot and all that followed it, and each command runs in the database it was issued in |
| `AofRecovery.RewrittenFileLoads` | redis-stable/src/aof.c:1254-1275 | loading the rewritten file runs the commands of the dump and then those fed since the fork, and ends well exactly when they leave no transaction open |
| `AofRecovery.RestartRunsPrefix` | redis-stable/src/aof.c:565-573 | a restart at any moment of any run loads and runs a prefix of the log; when it does without aof-load-truncated is stated exactly |
| `AofFlush.AppendOnlyFile.Feed` | redis-stable/src/aof.c:562-566 | the bytes are added to the buffer and nothing else changes |
| `AofFlush.AppendOnlyFile.Flush` | redis-stable/src/aof.c:288-436 | for full, short and failed writes, truncate succeeding or not, file and buffer together stay all that was fed and the recorded size is that of the file; the bytes in the file, and when it postpones, keeps or exits, are stated exactly |
| `Crc64Table.TableIsStepped` | redis-stable/src/crc64.c:42-171 | each of the 256 entries is its index divided for eight bits by the reflected polynomial |
| `Crc64Table.StepsAreBijective` | redis-stable/src/crc64.c:42-171 | eight bits of the division are a bijection on the 64 bit states |
| `Crc64Table.CrcByteIsSteps` | redis-stable/src/crc64.c:173-181 | the table driven step is eight bits of the plain division with the byte mixed in |
| `Crc64Table.CrcByteSeparates` | redis-stable/src/crc64.c:173-181 | one step takes different states apart and different bytes apart |
| `Dump.Crc64` | redis-stable/src/crc64.c:173-181 | the loop computes the recursive definition |
| `Dump.CreateDumpPayload` | redis-stable/src/cluster.c:4615-4642 | value, version and CRC in the order of the footer |
| `Dump.VerifyDumpPayload` | redis-stable/src/cluster.c:4648-4665 | accepts exactly payloads of ten bytes or more with a version not newer and the right CRC |
| `Dump.NewerIsRejected` | redis-stable/src/cluster.c:4657-4659 | a payload of a version above 8 is rejected whatever its CRC, and no other is for its version |
| `Dump.LittleEndianSpells` | redis-stable/src/cluster.c:4637-4641 | the CRC is stored with its least significant byte first |
| `Dump.CreatedIsVerified` | redis-stable/src/cluster.c:4615-4665 | every created payload is accepted |
| `Dump.OneByteChangesCrc` | redis-stable/src/crc64.c:173-181 | changing one byte of a string of any length changes its CRC |
| `Dump.OneByteIsRejected` | redis-stable/src/cluster.c:4648-4665 | an accepted payload with one byte changed, footer included, is rejected |
| `Popcount.BitsInByte` | redis-stable/src/bitops.c:44 | the table entry is the number of bits of the byte |
| `Popcount.AddLanes` | redis-stable/src/bitops.c:80-86 | lanes that stay below 256 are added without a carry between them |
| `Popcount.FoldLanes` | redis-stable/src/bitops.c:80-86 | with at most 56 in each lane the product and shift give the sum of the lanes |
| `Popcount.Count28IsBitSum` | redis-stable/src/bitops.c:54-86 | the word parallel count of 28 bytes is the plain count |
| `Popcount.RedisPopcount` | redis-stable/src/bitops.c:40-91 | for every string, start address and byte order, the result is the number of bits, and words are read at aligned addresses only |
| `Bitpos.SkipWord` | redis-stable/src/bitops.c:133-141 | a word is skipped exactly when all its bytes have none of the bits looked for |
| `Bitpos.WordBit` | redis-stable/src/bitops.c:144-159 | bit k of the word loaded is bit k of the bytes, most significant first |
| `Bitpos.Scan` | redis-stable/src/bitops.c:168-185 | the bit by bit scan finds the first bit, and the panic after it is never reached |
| `Bitpos.RedisBitpos` | redis-stable/src/bitops.c:101-186 | for every string and start address, the least position of the bit; -1 exactly when no bit is set; the length in bits when all are set and a clear one is looked for; words are read at aligned addresses only |
| `Bitfield.SetUnsignedBitfield` | redis-stable/src/bitops.c:209-222 | the field holds the low bits of the value and no other bit changes |
| `Bitfield.HoldsIsModulo` | redis-stable/src/bitops.c:209-241 | a field that holds the low bits of a value reads as the value modulo 2^bits |
| `Bitfield.GetUnsignedBitfield` | redis-stable/src/bitops.c:229-241 | the loop reads the number the bits of the field spell |
| `Bitfield.SetSignedBitfield` | redis-stable/src/bitops.c:224-227 | the field reads as the value modulo 2^bits and no other bit changes |
| `Bitfield.GetSignedBitfield` | redis-stable/src/bitops.c:243-263 | the result is the signed number of the field |
| `Bitfield.GetAfterSet` | redis-stable/src/bitops.c:209-263 | reading after writing gives the value modulo 2^bits, or its signed representative, which is the value when it is in range |
| `Bitfield.RepresentativeIsUnique` | redis-stable/src/bitops.c:355-372 | the wrapped value is the only number of the width congruent to the sum |
| `Bitfield.UnsignedIsExact` | redis-stable/src/bitops.c:288-323 | for stored values the verdict is non-zero exactly when the sum leaves the range, with the modular value under WRAP and the clamp under SAT |
| `Bitfield.UnsignedTooLarge` | redis-stable/src/bitops.c:288-323 | a value too large for the field is always an overflow, with the right replacement |
| `Bitfield.SignedIsExact` | redis-stable/src/bitops.c:325-375 | the same for signed fields of up to 64 bits |
| `Bitfield.SignedSetIsExactIff` | redis-stable/src/bitops.c:325-352 | for SET the signed verdict is right exactly under WRAP, for 64 bits, or for values above max - 2^63 |
| `Bitfield.SignedSetGoesWrong` | redis-stable/src/bitops.c:325-352 | the least 64 bit number put into a signed byte saturates to 127 |
| `Bitfield.IncrByUnsigned` | redis-stable/src/bitops.c:1052-1081 | reply, field and the rest of the string after INCRBY, under every policy |
| `Bitfield.IncrBySigned` | redis-stable/src/bitops.c:1022-1051 | the same for signed fields |
| `Bitop.LoadIsBytes` | redis-stable/src/bitops.c:679-727 | a word operation does the same to each of its eight bytes, in either byte order |
| `Bitop.FastPath` | redis-stable/src/bitops.c:668-729 | every byte done by the unrolled loops is the fold of that byte of all sources |
| `Bitop.SlowPath` | redis-stable/src/bitops.c:732-744 | the byte loop completes the rest |
| `Bitop.Lengths` | redis-stable/src/bitops.c:627-654 | the lengths of the longest and of the shortest source, both attained, a missing key counting as empty |
| `Bitop.BitopKernel` | redis-stable/src/bitops.c:591-745 | for any number of sources of any lengths, the result has the length of the longest and each byte is the fold of the zero padded sources; NOT takes one source |
| `Bitop.FoldedBit` | redis-stable/src/bitops.c:732-744 | a bit of the result is set when all, some, an odd number, or none of the sources have it |
| `Adlist.List.AddNodeHead` | redis-stable/src/adlist.c:88-106 | the value is put first |
| `Adlist.List.AddNodeTail` | redis-stable/src/adlist.c:114-132 | the value is put last |
| `Adlist.List.InsertNode` | redis-stable/src/adlist.c:134-161 | a new node right after or before the given one |
| `Adlist.List.DelNode` | redis-stable/src/adlist.c:167-179 | exactly the given node goes |
| `Adlist.List.Index` | redis-stable/src/adlist.c:315-327 | the node at a position from either end, or null beyond it |
| `Adlist.List.Rotate` | redis-stable/src/adlist.c:330-343 | the last node becomes the first |
| `Adlist.List.Join` | redis-stable/src/adlist.c:347-361 | the nodes are appended and the other list is emptied; the result is a list exactly when the other one had a node or this one had none |
| `Adlist.LinkedAfterRemove` | redis-stable/src/adlist.c:167-179 | with the two links around a node led past it, the remaining nodes are linked in order |
| `Adlist.Iter.Next` | redis-stable/src/adlist.c:229-240 | the nodes in order, in either direction |
| `Adlist.DelReturned` | redis-stable/src/adlist.c:214-228 | the node just returned may be deleted; the iterator goes on with its neighbour and skips nothing |
| `Adlist.SearchKey` | redis-stable/src/adlist.c:290-309 | the first node holding the key, or null when there is none |
| `Bio.JobsRunOnceInOrder` | redis-stable/src/bio.c:171-225 | under every interleaving each node of the queue has its job run once and in order of creation, the counter is the queue length while the lock is free, and zero means all created jobs have run |
| `Bio.WorkerRemovesItsJob` | redis-stable/src/bio.c:212-214 | the node the worker deletes, by identity, is the first of the queue and the one whose job it ran; nodes of equal jobs stay |
| `Bio.StepKeepsOrder` | redis-stable/src/bio.c:131-143 | every step keeps the jobs run followed by the jobs to run equal to the jobs created |
| `Bio.WaitEndsIff` | redis-stable/src/bio.c:237-247 | without new jobs, a call that blocks is over when the worker is idle exactly if a job in the queue still had its broadcast to come |
| `Bio.WaitCanBeLost` | redis-stable/src/bio.c:207-214 | a run that ends with all jobs done, the counter at zero, and a call still blocked |

## Left out

- Election.OneWinnerPerEpoch: the voter set and its size are fixed, and elections start from a count of zero; a run without the second condition may still have one winner per epoch, so it is necessary for the counts and not for every single run.
- RepairBound.RepairTerminates: for runs in which epochs change by collision repair alone; `EpochRepair.OwnChangesIff` lists what else changes them.
- EpochRepair.SteadyRunsRepair: no node changes between master and replica during the run, and no command bumps or assigns an epoch.
- EpochBound.EpochsBoundedInEveryRun: nodes do not crash and are not hard reset, since the vote is not scheduled for saving and a hard reset zeroes the epochs.
- FailureReports.FailNeedsQuorum: a node never processes gossip sent by itself.
- AofLog.Load: reads fail only at the end of the file, memory suffices, running a command is recording it and following the transaction flag, and a file with an RDB preamble is recognised and not read.
- AofRewrite.RewritePreservesValue: scores and integers are the texts written for them; formatting and parsing numbers is not modelled.
- AofProtocol.RewriteLosesNothing: the append only file is enabled throughout; rewriting with the file disabled is not modelled.
- AofFlush.AppendOnlyFile.Flush: scheduling of fsync and latency samples are not modelled.
- Bitfield.GetSignedBitfield: widths 1 to 63; at 64 the source shifts by the width of the type, which C leaves undefined.
- Bitfield.SignedIsExact: WRAP for fields of up to 63 bits only, for the same reason.
- Bitfield.SignedSetGoesWrong: signed differences wrap around, as on the usual machines; the C standard leaves them undefined.
- Bio.WaitEndsIff: condition variables wake up only when signalled.
- Adlist.Iter.Next: inserting during an iteration is not modelled.
- Slave migration, client redirection, MIGRATE, handshakes, gossip selection, nodes.conf, sockets and links of `cluster.c`.
- Translation of EXPIRE and SETEX into absolute times, module objects and string objects in `aof.c`.
- listDup, listEmpty and listRelease of `adlist.c`: each is one loop over operations that are modelled.
- bioInit, bioKillThreads and the bodies of the jobs of `bio.c`.
- Argument parsing, reply formatting, SETBIT, GETBIT and the GET buffer of `bitops.c`.
- The Rails application, its PHP pages and deployment scripts: persistence and transport over libraries that are not part of the repository.
- `ae.c`, `anet.c`, `defrag.c`, `config.c` and `childinfo.c`: wrappers over system calls, or tables whose helpers are not part of this model.
