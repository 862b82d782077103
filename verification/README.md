# Verified models of the Redis core in `redis-3.0/src`

A Dafny model of seven C files of the vendored Redis 3.0 sources, and of the transactions of `multi.c`
as far as they are logged, with POSIX branches and 64-bit longs, and proofs of what those files promise.
`dafny verify dfyconfig.toml` checks the whole project.

Code that works in place is modelled in place: classes with the source's fields, arrays for buffers,
loops with invariants. Each such method is proved against a function or a predicate, and the hard
properties are lemmas about those, in terms of the states before and after.

* **Dictionary** (`dict.c`). `Words`, `ScanOrder`, `ScanExpand`, `ScanCondition`: the cursor arithmetic.
  `DictModel`, `DictOps`, `DictTable`: two tables, incremental rehashing, and the operations as those of
  a finite map. `DictGrowth`: when tables grow, and their load. `DictScan`, `DictScanGap`,
  `DictScanCall`: the stateless scan. `DictIter`, `DictIterRun`, `DictIterCall`: safe iteration.
* **Cluster** (`cluster.c`). `ClusterSlots`, `ClusterRoles`, `ClusterTable`, `ClusterClaims`,
  `ClusterClaimEnds`, `ClusterConverge`: slot bookkeeping, roles and claims. `ClusterEpochs`: config epoch
  collisions. `ClusterElection`, `ClusterElectionRun`, `ClusterElectionTimes`, `ClusterElectionLate`:
  failover votes. `DumpPayload`: the footer of DUMP.
* **Append only file** (`aof.c`). `Bytes`, `AofCodec`, `AofFile`: the format and the loader.
  `AofReplay`, `AofRewrite`, `AofEmit`: what replaying does, and rewriting. `AofLog`, `AofServer`: the
  log over a server's life. `AofHandshake`, `AofHandOver`: the diff sent to the rewriting child.
* **HyperLogLog** (`hyperloglog.c`). `HllDense`, `HllSparse`, `HllSparseAdd`, `HllObject`, `HllMethods`,
  `HllSparseSize`: the two encodings and adding. `HllSums`: the four sums. `HllHash`, `HllMerge`,
  `HllSets`: elements, merging, and registers as a function of a set.
* **Integer sets** (`intset.c`). `IntsetBytes`, `IntsetMoves`, `IntsetTable`.
* **Bits and checksums** (`bitops.c`, `crc64.c`). `Bits`, `Popcount`, `Bitpos`, `Bitop`, `Crc64`.

Runs are sequences of events from any allowed start, with adversarial outcomes: writes that take any
part or fail, packets that are lost, stale or reordered, any order of walking a table.

## Where the code is weaker than its documentation

* The comment above `dictScan` promises that every element present throughout is returned. The loop
  over the larger table steps in numeric order (`dict.c:919`), so a call made while a shrink by four or
  more is in progress can skip buckets. `ScanCondition.CoversExactly` gives the exact condition per
  call, `DictScan.ScanComplete` the scan under it, and `DictScanGap.ScanMissesKey` a run that misses a
  key. Tables that only grow, or differ by a factor of two, always meet the condition.
* `failover_auth_count` is cleared when an attempt is scheduled (`cluster.c:2830`) and not when votes
  are asked for (`cluster.c:2890`), so votes that arrive in between count for the next epoch.
  `ClusterElectionRun.CountIs` says what the count is, `QuorumIsMajority` when it is a majority, and
  `VotedInOnce` that quorums reached without such votes are unique; `ElectionSafety` is the case of runs
  that have none. `ClusterElectionLate.LateVotesBreakSafety` is a run in which one such vote elects two
  slaves for one epoch.
* The comment in `clusterHandleSlaveFailover` gives the election timeout as the lesser of twice the node
  timeout and two seconds (`cluster.c:2771`); the code takes the greater, and `LookDecides` and
  `AttemptsSpaced` in `ClusterElectionTimes` speak of that.
* With `aof-load-truncated` a file that ends inside a transaction is cut after its last whole command, and
  the MULTI stays in it: the loader then refuses it if the option is off, and cuts it again if it is on.
  `AofCodec.RecoveredFileLoads` is the exact condition, `RecoveredFileRefused` an instance.
* `clusterDelNodeSlots` says it returns the number of deleted slots; the counter stands outside the `if`
  (`cluster.c:3441`), and it returns 16384 for every node. `ClusterTable.ReturnsDeletedIffAll` is the exact
  condition, `NothingDeleted` a node for which it is wrong.
* `clusterUpdateSlotsConfigWith` follows a null pointer on a slave whose master is unknown, and runs into
  the assertion of `clusterSetMaster` on a slave that serves slots itself, which CLUSTER ADDSLOTS allows.
  `ClusterClaims.UpdateSlotsConfigWith` gives both exact conditions, `ClaimsThatKill` an instance of each,
  `HeardEnds` carries them to whole packets, and `SettledSurvives` says which nodes never end that way.
* A master that turns into a slave forgets its slaves, which still name it (`cluster.c:1799`); removing it
  leaves them a dangling master. `ClusterRoles.RemovedLinked` is the exact condition, `SlaveLeftDangling` a
  run.
* `dictAdd` fails for a present key only, says its comment; `_dictKeyIndex` returns the bucket number as an
  `int`, so beyond 2^31 buckets an absent key may be refused or linked outside its bucket.
  `DictOps.AddIsWide` is the exact condition, `AbsentKeyRefused` an instance.

## Model

| member | source | states |
|---|---|---|
| `Words.RevReversesBits` | redis-3.0/src/dict.c:772-780 | `rev` puts bit i of the word at position 63 - i, for every word and every i |
| `Words.ReverseBits` | redis-3.0/src/dict.c:772-780 | the loop that halves the shift and derives each mask from the last computes the reversal `Rev`, for every word |
| `DictScanCall.AdvanceCursor` | redis-3.0/src/dict.c:925-932 | the two calls of that loop around the increment leave `NextCursor`, the cursor the properties of the scan are about |
| `ScanOrder.NextCursorCovers` | redis-3.0/src/dict.c:927-934 | a hash that the next cursor counts as done (it comes before it in reversed order, or the cursor came back to 0) was done before or is in the bucket just emitted |
| `ScanOrder.NextCursorLarger` | redis-3.0/src/dict.c:927-934 | the reversed value of the cursor strictly rises until it wraps to 0, for every mask |
| `ScanOrder.NextCursorRises` | redis-3.0/src/dict.c:925-932 | a cursor that is not 0 comes after the one before it in the scan order |
| `ScanExpand.VisitsExactly` | redis-3.0/src/dict.c:908-922 | the mid-rehash loop visits exactly the buckets of the larger table that are congruent to the cursor's, from the cursor's own upwards in numeric (not reversed) order |
| `ScanCondition.CoversExactly` | redis-3.0/src/dict.c:908-934 | exact condition, both ways: a call made mid-rehash covers every hash of the bucket its cursor moves past if and only if the cursor's bits between the two masks form a low mask |
| `DictScan.CallCoversKey` | redis-3.0/src/dict.c:866-935 | under that condition a present key the new cursor counts as done was done before or is emitted by this call |
| `DictScan.EmitsExactly` | redis-3.0/src/dict.c:876-922 | a call emits exactly the present keys in the buckets it reaches, mid-rehash or not, and so never a key that is not in the dictionary |
| `DictScan.EmitsOnce` | redis-3.0/src/dict.c:876-922 | a call emits no key twice, and each key with the value the dictionary holds under it |
| `DictScan.SmallerFirst` | redis-3.0/src/dict.c:890-922 | during a rehash the callback gets the entries of the smaller table first, then those of the larger, bucket by bucket upwards |
| `DictScan.ScanComplete` | redis-3.0/src/dict.c:866-935 | every key present throughout a scan from cursor 0 to cursor 0 is emitted, with arbitrary changes of the dictionary between calls, provided each call meets the condition a caller can check beforehand |
| `DictScan.DoubleIsGapFree` | redis-3.0/src/dict.c:908-934 | tables whose sizes differ by exactly a factor of two meet the condition with every cursor the scan can return |
| `DictScan.GrowingScanComplete` | redis-3.0/src/dict.c:866-935 | a scan of a table that only grows needs no condition |
| `DictScan.ScanEnds` | redis-3.0/src/dict.c:866-935 | a scan over tables of at most 2^n buckets makes at most 2^n calls |
| `DictScanGap.ScanMissesKey` | redis-3.0/src/dict.c:908-922 | concrete run in which a shrink by more than a factor of two caught mid-rehash makes the scan miss a key that is present throughout: the condition is needed |
| `DictScanCall.ScanExpansions` | redis-3.0/src/dict.c:908-922 | the loop in place emits what the function `ExpandEmit` says, and leaves the cursor it says |
| `DictScanCall.Scan` | redis-3.0/src/dict.c:866-935 | the callback receives exactly the entries of `DictScan.Scan`, in order, and the cursor returned is its cursor |
| `DictModel.RehashOK` | redis-3.0/src/dict.c:253-301 | `dictRehash` keeps every invariant and changes no binding, returns 1 exactly while two tables are left, and unless it ends it moves `rehashidx` strictly forward |
| `DictModel.BucketsLeft` | redis-3.0/src/dict.c:265-267 | while the first table holds entries `rehashidx` is inside it: the assertion holds |
| `DictOps.NextExp` | redis-3.0/src/dict.c:962-972 | the power of two found is the least one, from 4 on, that is not below the size |
| `DictOps.ExpandIfNeededOK` | redis-3.0/src/dict.c:940-959 | expansion on demand never fails, keeps invariants and contents, and leaves a table to insert into; when it grows and to what size: `DictGrowth.GrowsExactly` |
| `DictGrowth.GrowsExactly` | redis-3.0/src/dict.c:940-959 | before an add: no expansion during a rehash; four buckets for the first entry; a table at rest starts a rehash if and only if it has an entry for every bucket and resizing is allowed, or six for every bucket whether or not; the new size is the least power of two not below twice the entries; else the tables are as before |
| `DictGrowth.ExpandsExactly` | redis-3.0/src/dict.c:212-242 | `dictExpand` fails exactly during a rehash, below the number of entries, or at the size the table has; it makes an empty table of the least power of two, the first one at once, any other as the target of a rehash |
| `DictGrowth.StepMoves` | redis-3.0/src/dict.c:253-336 | one step without a safe iterator moves exactly the next bucket that is not empty if it is among the next ten, else passes ten; rehashing ends with the last entry |
| `DictGrowth.RunLoad` | redis-3.0/src/dict.c:253-461 | in every run of adds, finds and deletes without a safe iterator, both tables together hold at most one entry for every bucket of the table that takes new ones if resizing was allowed at every add, at most six if not |
| `DictGrowth.EmptyLoad` | redis-3.0/src/dict.c:178-199 | a new dictionary is a start of such runs |
| `DictGrowth.RehashEnds` | redis-3.0/src/dict.c:253-336 | and a rehash ends within as many operations as the first table has buckets left |
| `DictOps.AddWideOK` | redis-3.0/src/dict.c:339-386 | if bucket numbers had any width: add succeeds if and only if the key was absent, afterwards the contents are the old ones with that binding, and on failure they are unchanged |
| `DictOps.AddIsWide` | redis-3.0/src/dict.c:365-386 | the code's add, whose bucket number goes through an `int`, is that add if and only if the key is present or the number is at most 2^31 - 1 |
| `DictOps.AddOK` | redis-3.0/src/dict.c:339-386 | every outcome of the code's add: linked if and only if the key is absent and its bucket number fits an `int`; an absent key refused exactly if the number's low 32 bits are all ones; in each case the contents |
| `DictOps.FewBucketsFit` | redis-3.0/src/dict.c:979-1002 | with at most 2^31 buckets in the table that takes new entries add succeeds if and only if the key was absent |
| `DictOps.AbsentKeyRefused` | redis-3.0/src/dict.c:979-1002 | the bound is needed: with 2^32 buckets an absent key is refused |
| `DictOps.FindOK` | redis-3.0/src/dict.c:506-532 | find returns what the dictionary holds under the key, at any point of a rehash, and changes no binding |
| `DictOps.ReplaceOK` | redis-3.0/src/dict.c:392-411 | after replace the key is bound to the value, every other binding is as it was, and the answer says whether the key was new; it fails, by a wild write or a null entry followed, if and only if the key was absent and its bucket number does not fit an `int` |
| `DictOps.DeleteOK` | redis-3.0/src/dict.c:426-461 | delete succeeds if and only if the key was present, and removes exactly that binding |
| `DictTable.NextPower` | redis-3.0/src/dict.c:962-972 | the doubling loop returns the power `NextExp` describes, for sizes below LONG_MAX |
| `DictTable.Dict.Rehash` | redis-3.0/src/dict.c:253-301 | the arrays, counters and index are those of the rehash function, whatever budget of empty visits ran out |
| `DictTable.Dict.RehashStep` | redis-3.0/src/dict.c:334-336 | one bucket moves unless a safe iterator is registered |
| `DictTable.Dict.Expand` | redis-3.0/src/dict.c:212-242 | succeeds or fails, and changes the tables, as the expand function says, of which `DictGrowth.ExpandsExactly` is the exact condition |
| `DictTable.Dict.ExpandIfNeeded` | redis-3.0/src/dict.c:940-959 | state and result of the expansion function, of which `DictGrowth.GrowsExactly` says when it grows and to what |
| `DictTable.Dict.Add` | redis-3.0/src/dict.c:339-386 | the new state and the result are those of `DictOps.Add` on the old state |
| `DictTable.Dict.KeyIndex` | redis-3.0/src/dict.c:987-1001 | -1 for a present key, else the bucket number as an `int` holds it |
| `DictTable.Dict.Find` | redis-3.0/src/dict.c:506-532 | the new state and the value found are those of `DictOps.Find` |
| `DictTable.Dict.Replace` | redis-3.0/src/dict.c:392-411 | the new state and the result are those of `DictOps.Replace` |
| `DictTable.Dict.Delete` | redis-3.0/src/dict.c:426-461 | the new state and the result are those of `DictOps.Delete` |
| `DictTable.Dict.Search` | redis-3.0/src/dict.c:514-523 | finds the first match, first table first; -1 exactly when the key is absent |
| `DictTable.Dict.MoveCurrentBucket` | redis-3.0/src/dict.c:272-287 | moving a chain entry by entry in place is the function `MoveBucket` |
| `DictIter.NextOK` | redis-3.0/src/dict.c:592-625 | a call of `dictNext` returns a key that was ahead, with its value, and leaves exactly the others ahead; it ends if and only if none was |
| `DictIterRun.StepInv` | redis-3.0/src/dict.c:592-636 | every add, find, replace, delete, expansion and `dictNext` keeps the invariant that each key of the start is returned, lost, or still to come |
| `DictIterRun.ExactlyOnce` | redis-3.0/src/dict.c:592-636 | no key is returned more often than once plus its deletions, and at the end every key of the start that was not deleted before its turn has been returned; one never deleted, exactly once |
| `DictIterCall.Iterator.Next` | redis-3.0/src/dict.c:592-625 | the iterator object moves, saves the next entry and registers itself as the function says |
| `DictIterCall.Iterator.Release` | redis-3.0/src/dict.c:627-636 | an iterator that has started is taken off the count, another is not |
| `ClusterSlots.BindOK` | redis-3.0/src/cluster.c:3415-3420 | binding an unbound slot keeps bitmap, table and count in agreement |
| `ClusterSlots.UnbindOK` | redis-3.0/src/cluster.c:3425-3432 | a bound slot's bit is set, so the assertion in `clusterDelSlot` never fires, and unbinding keeps the agreement |
| `ClusterTable.Cluster.AddSlot` | redis-3.0/src/cluster.c:3415-3420 | refuses a bound slot; otherwise binds it, sets the bit and counts it; agreement kept |
| `ClusterTable.Cluster.DelSlot` | redis-3.0/src/cluster.c:3425-3432 | refuses an unbound slot; otherwise clears entry, bit and count; agreement kept |
| `ClusterTable.Cluster.DelNodeSlots` | redis-3.0/src/cluster.c:3436-3444 | all slots of the node and no others are unbound; the number returned is 16384, whatever it served |
| `ClusterTable.Cluster.AddNode` | redis-3.0/src/cluster.c:875-881 | a new node with no slots is known; a known name is refused |
| `ClusterTable.Cluster.DelNode` | redis-3.0/src/cluster.c:845-921 | afterwards the node is unknown, no slot is bound to it or imported from it, the slaves it lists have no master; no node is left naming it as its master if and only if none did that it does not list; agreement kept |
| `ClusterTable.Cluster.SetNodeAsMaster` | redis-3.0/src/cluster.c:1441-1452 | the node is a master; a former slave follows nobody and is off its master's list; nothing else changes |
| `ClusterTable.Cluster.TurnedSlave` | redis-3.0/src/cluster.c:1789-1815 | a former master loses all its slots and its list of slaves, and nobody else any slot; the master it follows, and is listed by, is the one named, if known |
| `ClusterTable.Cluster.ReplaceYourMaster` | redis-3.0/src/cluster.c:2719-2736 | the slave becomes a master with exactly its master's slots, the master is left with none; agreement kept |
| `ClusterTable.Cluster.SetMaster` | redis-3.0/src/cluster.c:3635-3650 | for a node without slots, as asserted: it becomes a slave of the node and is on its list; a former master's open slots are closed |
| `ClusterTable.ReturnsDeletedIffAll` | redis-3.0/src/cluster.c:3434-3444 | that number is how many slots were deleted if and only if the node served all of them |
| `ClusterTable.NothingDeleted` | redis-3.0/src/cluster.c:3434-3444 | concrete run: a node without slots, and 16384 is returned |
| `ClusterRoles.AsMasterIs` | redis-3.0/src/cluster.c:1441-1452 | a slave that says it is a master leaves the list of its master, and of the other nodes nothing else changes |
| `ClusterRoles.TurnedIs` | redis-3.0/src/cluster.c:1789-1815 | a sender that says it is a slave is one, without slaves if it was a master; it leaves the list of its old master for that of the one it names if that is another known node; nothing else changes |
| `ClusterRoles.FollowingIs` | redis-3.0/src/cluster.c:3635-3650 | a node made to follow another is a slave on its list, off that of the master it had as a slave; nothing else changes |
| `ClusterRoles.RemovedIs` | redis-3.0/src/cluster.c:838-872 | removing a node takes it off its master's list and leaves the slaves on its own list without a master; nothing else changes |
| `ClusterRoles.TurnedRoles` | redis-3.0/src/cluster.c:1789-1815 | a role change keeps the links: every master named is known, every slave listed names the lister, masters follow nobody |
| `ClusterRoles.RemovedLinked` | redis-3.0/src/cluster.c:845-856 | exact condition, both ways: removing a node keeps the links if and only if every other node that names it as its master is on its list and it is a master |
| `ClusterRoles.SlaveLeftDangling` | redis-3.0/src/cluster.c:1799-1799 | concrete run: a master with a slave turns into a slave, is removed, and its slave still names it |
| `ClusterClaims.ClaimSlot` | redis-3.0/src/cluster.c:1489-1523 | one slot of a claim is rebound exactly when it is claimed with a greater epoch, not the sender's already and not being imported |
| `ClusterClaims.RebindClaimed` | redis-3.0/src/cluster.c:1488-1525 | the table after the loop is the function `Rebound` of the table before; the dirty list and the new-master flag are exact |
| `ClusterClaims.UpdateSlotsConfigWith` | redis-3.0/src/cluster.c:1465-1553 | the whole handler: the claim applied; it follows a null pointer exactly when this slave's master is unknown and a claimed slot is unbound and not being imported; the assertion of `clusterSetMaster` fails exactly when the master is left without slots and this slave keeps one; else this node follows the sender exactly when the master it serves for lost a slot and has none left, with the other nodes and its importing states as `clusterSetMaster` leaves them, and otherwise the other nodes keep all but their slots and the slots whose keys must go are returned |
| `ClusterClaimEnds.ClaimRule` | redis-3.0/src/cluster.c:1489-1523 | slot by slot: it goes to the sender if and only if it is claimed, not being imported, and unbound or bound to a node of a strictly smaller configEpoch |
| `ClusterClaimEnds.ClaimOutcome` | redis-3.0/src/cluster.c:1465-1553 | read off the tables before and after: if the node's master (itself, if it is one) lost no slot or has one left, roles stay and the dirty slots are exactly those this node lost while holding keys; if it lost its last, the node follows the sender, unless it serves slots itself, which ends the process, as a lost unbound slot does if there is no master |
| `ClusterClaims.SettledSurvives` | redis-3.0/src/cluster.c:1465-1553 | a master, or a slave that knows its master and serves nothing, survives every claim and is again such a node |
| `ClusterClaims.ClaimsThatKill` | redis-3.0/src/cluster.c:1513-1538 | both ends of the process happen: concrete tables and claims |
| `ClusterClaims.CleanClaimIsNoop` | redis-3.0/src/cluster.c:1831-1843 | when the bitmap sent equals the one known, applying the claim would change nothing: skipping it is safe |
| `ClusterClaims.ReceivePing` | redis-3.0/src/cluster.c:1619-1630 | the slot part of a PING from any known node, itself included: epoch raised, sender a master, then the claim ends as it does from there, by itself or with the process; a claim that equals the known bitmap is skipped with the same outcome; an unknown sender changes nothing; agreement kept |
| `ClusterClaims.ReceiveUpdate` | redis-3.0/src/cluster.c:1971-1991 | an UPDATE from an unknown node or with no newer epoch changes nothing; otherwise the node is a master at the new epoch and the claim ends as it does from there; agreement kept |
| `ClusterClaims.HeardEnds` | redis-3.0/src/cluster.c:1465-1553 | whatever the receiving node, either packet makes the process end by the null pointer or by the assertion exactly under the conditions of `UpdateSlotsConfigWith` on the tables before the packet with the sender's epoch raised; a settled node survives and stays settled |
| `ClusterConverge.ClaimsConverge` | redis-3.0/src/cluster.c:1488-1525 | after any sequence of the claims with repeats in which each was heard, every slot not being imported belongs to the claimant of the greatest epoch, this node's initial slots counting as its claim |
| `ClusterConverge.OrderIrrelevant` | redis-3.0/src/cluster.c:1488-1525 | any two such histories give the same table |
| `ClusterEpochs.Cluster.HandleConfigEpochCollision` | redis-3.0/src/cluster.c:1066-1081 | exactly if the configEpochs are equal and the sender's name is greater, currentEpoch rises by one and becomes the node's configEpoch; else nothing changes |
| `ClusterEpochs.Cluster.ProcessPacket` | redis-3.0/src/cluster.c:1619-1630 | epochs after any packet are those of the function `Receive` |
| `ClusterEpochs.KnowsNewest` | redis-3.0/src/cluster.c:1619-1630 | after any packet, for every node the newest of what was known and what the packet says of it, and nothing newer |
| `ClusterEpochRun.TakesNext` | redis-3.0/src/cluster.c:1066-1081 | a delivery makes a node take a new configEpoch exactly if it is a ping with the node's own configEpoch, not older than the sender's known one, from a greater name; the new one is one more than the greatest epoch the node knows |
| `ClusterEpochRun.BumpsBounded` | redis-3.0/src/cluster.c:1066-1081 | in any run, with stale, lost and reordered packets, the master with the k-th greatest name, k from 0, takes a new configEpoch at most k times |
| `ClusterEpochRun.TotalBumps` | redis-3.0/src/cluster.c:1889-1896 | all masters together: at most n(n-1)/2 times, so collisions end |
| `ClusterEpochRun.QuietIffDistinct` | redis-3.0/src/cluster.c:1889-1896 | in a reachable state no ping sent now causes a bump if and only if all configEpochs differ |
| `ClusterElection.Cluster.SendFailoverAuthIfNeeded` | redis-3.0/src/cluster.c:2521-2621 | votes exactly when every check passes, and then remembers the epoch and the time |
| `ClusterElection.Cluster.AnyOutdatedSlot` | redis-3.0/src/cluster.c:2596-2613 | true exactly when some claimed slot is served at a greater configEpoch |
| `ClusterElection.Cluster.ReceiveAck` | redis-3.0/src/cluster.c:1945-1957 | the count rises by one exactly for a slot-serving master whose epoch is not older than the election's |
| `ClusterElection.Cluster.Attempt` | redis-3.0/src/cluster.c:2856-2922 | wait, expire, ask for votes under a new epoch, or win, as the function says |
| `ClusterElection.Cluster.HandleSlaveFailover` | redis-3.0/src/cluster.c:2757-2922 | the whole handler up to taking over the slots, as the function says |
| `ClusterElection.Cluster.FailoverCommand` | redis-3.0/src/cluster.c:4248-4300 | CLUSTER FAILOVER is refused on a master, without a known master, and unforced when that is down; else it starts a manual failover of 5 seconds |
| `ClusterElection.Cluster.ClusterCron` | redis-3.0/src/cluster.c:3314-3319 | a manual failover past its time is given up, one whose offset is reached may start, and then the handler runs |
| `ClusterElectionTimes.VoteIffEarned` | redis-3.0/src/cluster.c:2521-2621 | a request is answered with a vote if and only if, by what the voter knew before the packet, it serves slots as a master, has heard of no newer epoch and not voted in this one, the sender is a slave whose master failed or the request is forced, its last vote about that master is twice the node timeout old, and no claimed slot has an owner of a greater configEpoch; the vote and its time are remembered |
| `ClusterElectionTimes.EveryVoteEarned` | redis-3.0/src/cluster.c:2521-2621 | every vote given in any run met those conditions in the state in which its request arrived |
| `ClusterElectionTimes.VotesSpaced` | redis-3.0/src/cluster.c:2580-2592 | along any run two votes of a node about the same master are at least twice its node timeout apart, whichever slaves asked |
| `ClusterElectionTimes.AckCounts` | redis-3.0/src/cluster.c:1945-1957 | a vote that arrives adds one to the count exactly if its sender serves slots as a master and its epoch is not older than the attempt's |
| `ClusterElectionTimes.LookDecides` | redis-3.0/src/cluster.c:2757-2922 | each outcome of the slave's handler exactly, with what it changes: when it may try, when an attempt is scheduled and for what time, when votes are asked for, when it has won |
| `ClusterElectionTimes.LookAsks` | redis-3.0/src/cluster.c:2889-2901 | a look asks for votes if and only if it is due, for the next epoch, with the slots and the configEpoch of the node's master, forced exactly during a manual failover |
| `ClusterElectionTimes.EveryRequestDue` | redis-3.0/src/cluster.c:2757-2922 | every request made in any run was due in the state in which it was made |
| `ClusterElectionTimes.AttemptsSpaced` | redis-3.0/src/cluster.c:2824-2855 | along any run two attempts of a node are scheduled more than twice the timeout apart, the timeout being the greater of twice the node timeout and two seconds |
| `ClusterElectionTimes.AskedAfterDelay` | redis-3.0/src/cluster.c:2824-2901 | along any run votes are asked for no sooner than half a second, and a second for every slave ahead, after an attempt is scheduled, unless for a manual failover |
| `ClusterElectionTimes.RunTrace` | redis-3.0/src/cluster.c:2521-2922 | every run is one with its states written out, of which those speak |
| `ClusterElectionRun.MajoritiesMeet` | redis-3.0/src/cluster.c:2903-2903 | two quorums of the masters share a master |
| `ClusterElectionRun.CountIs` | redis-3.0/src/cluster.c:2826-2903 | in any run of the code `failover_auth_count` is the number of distinct masters whose votes for the attempt's epoch came since it was asked for, plus the votes counted between scheduling and asking; it is the former alone if and only if there were none of the latter |
| `ClusterElectionRun.QuorumIsMajority` | redis-3.0/src/cluster.c:2903-2918 | exact condition: a quorum reached is a majority of distinct masters that voted for this node in this epoch if and only if it is reached without the late votes |
| `ClusterElectionRun.VotedInOnce` | redis-3.0/src/cluster.c:2521-2922 | along any run of the code as it is, whenever two nodes have reached the quorum without late votes for the same epoch, even at different moments, they are one node |
| `ClusterElectionRun.TimelyRun` | redis-3.0/src/cluster.c:1945-1957 | a run in which no vote that would be counted arrives between scheduling and asking has no late votes |
| `ClusterElectionRun.ElectionSafety` | redis-3.0/src/cluster.c:2521-2922 | along any such run whenever two nodes have reached the quorum for the same epoch, even at different moments, they are one node |
| `ClusterElectionLate.LateVotesBreakSafety` | redis-3.0/src/cluster.c:2830-2830 | concrete run of the code, with manual failovers inside their time limits, in which one late vote makes two nodes find at the same moment that they won the same epoch |
| `DumpPayload.CreateDumpPayload` | redis-3.0/src/cluster.c:4377-4404 | the payload is the body followed by the footer: 6, 0 and, lowest byte first, the checksum of all before it |
| `DumpPayload.VerifyDumpPayload` | redis-3.0/src/cluster.c:4410-4427 | true exactly for strings with that footer |
| `DumpPayload.AcceptedIsSealed` | redis-3.0/src/cluster.c:4377-4427 | byte by byte: accepted exactly if the last ten bytes are 6, 0 and, lowest byte first, the checksum of all before its eight |
| `DumpPayload.AcceptedIsFooted` | redis-3.0/src/cluster.c:4377-4427 | a string is accepted if and only if it is some body with the footer created for it |
| `DumpPayload.CreatedAccepted` | redis-3.0/src/cluster.c:4377-4427 | every created payload is accepted |
| `DumpPayload.RejectsBurst` | redis-3.0/src/cluster.c:4410-4427 | a string that differs from an accepted one within eight consecutive bytes, all checked or all in the checksum, is rejected |
| `DumpPayload.RejectsOneByte` | redis-3.0/src/cluster.c:4410-4427 | a string that differs from an accepted one in exactly one byte, anywhere, is rejected |
| `AofCodec.RoundTrip` | redis-3.0/src/aof.c:451-474 | loading the encoding of any non-empty sequence of non-empty commands with arbitrary bytes reads exactly that sequence; a file that ends inside a MULTI is refused, or counts as truncated without losing a byte |
| `AofCodec.EncodedText` | redis-3.0/src/aof.c:451-474 | the bytes for SET k v, written out |
| `AofReplay.NamesSpelled` | redis-3.0/src/aof.c:513-561 | the names of the commands in a log, spelled out |
| `AofCodec.TruncatedRecovery` | redis-3.0/src/aof.c:615-764 | loading any non-empty byte prefix reads exactly the commands wholly inside it and truncates the file to their total length; without `aof-load-truncated` it stops the server, unless the prefix ends with a command and outside a MULTI |
| `AofCodec.WholeIsGreatest` | redis-3.0/src/aof.c:711-757 | the number of commands kept is the greatest whose encoding fits the prefix |
| `AofCodec.RecoveredFileLoads` | redis-3.0/src/aof.c:733-757 | exact condition: the truncated file loads in full if and only if it does not end inside a MULTI |
| `AofCodec.RecoveredFileRefused` | redis-3.0/src/aof.c:711-757 | an instance: a file cut between MULTI and EXEC, which the loader refuses after cutting it itself |
| `AofCodec.GarbageStops` | redis-3.0/src/aof.c:655-691 | after any commands, a first byte other than an asterisk, a count that is not positive, or an argument that does not start with a dollar stops the server, with or without `aof-load-truncated` |
| `AofFile.CatAppendOnlyGenericCommand` | redis-3.0/src/aof.c:451-474 | the loop writes the encoding of the command |
| `AofFile.LoadAppendOnlyFile` | redis-3.0/src/aof.c:615-764 | reading line by line executes, ends, truncates or fails as the function `Load` says |
| `AofFile.Stream.ReadCommand` | redis-3.0/src/aof.c:655-691 | one command is read, or the end, a short file or a bad one is reported, as `Parse` says |
| `AofRewrite.EnumerationBuilds` | redis-3.0/src/aof.c:786-1013 | rebuilding a collection from any enumeration of its entries gives it back |
| `AofRewrite.ChunksReplay` | redis-3.0/src/aof.c:786-1013 | the commands of 64 items each rebuild exactly the collection |
| `AofRewrite.ChunkSizes` | redis-3.0/src/aof.c:786-1013 | every command but the last has 64 items, the last at most as many |
| `AofRewrite.RewriteReplays` | redis-3.0/src/aof.c:1061-1125 | replaying a rewrite from an empty server gives the dataset, in whatever order keys and items were walked |
| `AofEmit.RewriteCollection` | redis-3.0/src/aof.c:786-1013 | the counting loop with a header every 64 items writes exactly the encoding of those commands |
| `AofLog.FedTextTracks` | redis-3.0/src/aof.c:513-561 | what a feed appends are commands that do what was done, whatever database was selected before, inside a transaction or outside; MULTI and EXEC open and close one |
| `AofLog.FlushMoves` | redis-3.0/src/aof.c:289-449 | a whole write moves all of the buffer to the file; a short one that `ftruncate` cannot undo moves exactly the bytes written; a short one that it can, a failed or a postponed one moves none; the size follows |
| `AofLog.FlushKeeps` | redis-3.0/src/aof.c:289-449 | file and buffer together stay the same through full, short and failed writes, with `ftruncate` working or not |
| `AofLog.StepInv` | redis-3.0/src/aof.c:217-1617 | every feed, MULTI and EXEC included, flush, fork, end of rewrite, start and stop keeps: file plus buffer, and snapshot plus diff, replay to the live dataset |
| `AofLog.ReplayEquivalence` | redis-3.0/src/aof.c:217-1617 | in every reachable state with the log on and no transaction under way, loading file plus `aof_buf` and executing it from empty gives the live dataset |
| `AofLog.TransactionRuns` | redis-3.0/src/multi.c:114-173 | MULTI, any commands in any databases, and EXEC run as the commands one after the other, whatever the log is doing, and end in a state with no transaction under way |
| `AofLog.FileAlone` | redis-3.0/src/aof.c:217-1617 | in every run: after a whole write, after a rewrite that succeeded, and after the log is switched off with a whole write, outside a transaction, the file alone loads to the live dataset |
| `AofLog.SwitchedOn` | redis-3.0/src/aof.c:250-268 | in every run: after the log is switched on, whatever is executed until its first rewrite succeeds, it is on and the file alone loads to the live dataset |
| `AofLog.CrashRecovery` | redis-3.0/src/aof.c:615-764 | in every reachable state with the log on, transactions included, if only the first n bytes of file and buffer survive the loader gets exactly the commands wholly in them, a prefix of those that replay to the live dataset |
| `AofLog.ReplayInTransaction` | redis-3.0/src/aof.c:217-1617 | also inside a transaction the bytes replay to the live dataset |
| `AofServer.Server.Call` | redis-3.0/src/aof.c:513-561 | a command executed and fed, MULTI and EXEC included, is the function `Feed` |
| `AofServer.Server.FeedAppendOnlyFile` | redis-3.0/src/aof.c:513-561 | the buffer grows by a SELECT if the database changes, and the command; the child's diff by the same bytes |
| `AofServer.Server.FlushAppendOnlyFile` | redis-3.0/src/aof.c:289-449 | file, buffer and size after any outcome of the write, as in `AofLog.FlushMoves` |
| `AofServer.Server.RewriteAppendOnlyFileBackground` | redis-3.0/src/aof.c:1337-1359 | SELECT is forced and the snapshot taken, unless a child exists |
| `AofServer.Server.BackgroundRewriteDone` | redis-3.0/src/aof.c:1414-1617 | on success the file is snapshot and diff, the buffer is empty and the log on, unless it was switched off; on failure only the child goes |
| `AofServer.Server.StartAppendOnly` | redis-3.0/src/aof.c:250-268 | fails exactly if there is a child; else takes the snapshot and waits for the rewrite |
| `AofServer.Server.StopAppendOnly` | redis-3.0/src/aof.c:217-245 | flushes, a whole write moving all of the buffer to the file, forgets the child, and is off |
| `AofHandshake.AppendJoins` | redis-3.0/src/aof.c:133-178 | appending to the blocks appends to what they hold, and no block overflows |
| `AofHandshake.AppendPacks` | redis-3.0/src/aof.c:133-178 | a block is begun only when the one before it is full |
| `AofHandshake.SendJoins` | redis-3.0/src/aof.c:111-129 | what a partial write takes is the front of what the blocks hold |
| `AofHandshake.NothingLost` | redis-3.0/src/aof.c:102-203 | at every moment of any interleaving, child diff, pipe and blocks are together, in order, exactly the bytes fed since the fork |
| `AofHandshake.HandOver` | redis-3.0/src/aof.c:1151-1172 | once the final read is done, diff and blocks alone are those bytes |
| `AofHandshake.Parent.RewriteBufferAppend` | redis-3.0/src/aof.c:133-178 | the blocks in place are the function `Append` |
| `AofHandshake.Parent.ChildWriteDiffData` | redis-3.0/src/aof.c:102-130 | the bytes put into the pipe and the blocks left are, joined, the blocks before; nothing is put after the stop; whole writes empty the blocks, and a first write that takes something sends something |
| `AofHandshake.Parent.RewriteBufferWrite` | redis-3.0/src/aof.c:183-203 | if no write is short, all the blocks hold is written and counted; else -1, after a proper prefix of it |
| `AofHandOver.LogRuns` | redis-3.0/src/aof.c:102-203 | log and pipes as one system: what it does to the log is a run of the log alone |
| `AofHandOver.NewFileIsTheLogs` | redis-3.0/src/aof.c:1151-1172 | whenever the rewrite may succeed, snapshot, collected diff and remaining blocks make exactly the file that the log's account of a successful rewrite puts in place |
| `HllDense.SetThenGet` | redis-3.0/src/hyperloglog.c:337-359 | setting a 6-bit register and reading it gives the value, every other register and the terminator unchanged, for every index and value |
| `HllDense.SetRegister` | redis-3.0/src/hyperloglog.c:349-359 | in place, the register vector changes at that index alone |
| `HllDense.DenseAdd` | redis-3.0/src/hyperloglog.c:485-498 | the register becomes the maximum; 1 exactly if it rose |
| `HllSparse.SplitOK` | redis-3.0/src/hyperloglog.c:764-808 | splitting an opcode sets exactly one of its registers, in at most five bytes |
| `HllSparseAdd.MergeKeeps` | redis-3.0/src/hyperloglog.c:831-861 | merging neighbours changes no register and never lengthens the string |
| `HllSparseAdd.UpdateOK` | redis-3.0/src/hyperloglog.c:764-823 | splicing the split in place of its opcode sets exactly that register of the whole string |
| `HllObject.ToDenseOK` | redis-3.0/src/hyperloglog.c:568-620 | promotion keeps every register |
| `HllObject.PromoteOK` | redis-3.0/src/hyperloglog.c:868-881 | after a promotion the dense add always raises the register: the assertion holds |
| `HllObject.SparseAddOK` | redis-3.0/src/hyperloglog.c:638-882 | on a valid string the result, sparse or promoted, is valid and has the old registers with the maximum at the index; 1 exactly if it rose; a sparse result that grew is within the limit |
| `HllMethods.LocateOpcode` | redis-3.0/src/hyperloglog.c:667-689 | the search loop finds the opcode that covers the register, the one before it, and its first register |
| `HllMethods.SplitOpcode` | redis-3.0/src/hyperloglog.c:764-808 | the pieces written are the split |
| `HllMethods.MergeAdjacent` | redis-3.0/src/hyperloglog.c:831-861 | the loop over five opcodes is the merge function |
| `HllMethods.SparseToDense` | redis-3.0/src/hyperloglog.c:586-607 | the loop over opcodes fills the dense buffer as the function says |
| `HllSparseSize.PromotesExactly` | redis-3.0/src/hyperloglog.c:638-882 | the result is dense if and only if the count is above 32, or it exceeds the register's value and the opcodes that replace the register's are longer and make string and header exceed `maxBytes`; their length from the opcode and the place of the register in it |
| `HllSparseSize.ShortStaysSparse` | redis-3.0/src/hyperloglog.c:638-882 | an add within three bytes of the limit, of a count up to 32, stays sparse |
| `HllSparseSize.FreshStaysSparse` | redis-3.0/src/hyperloglog.c:638-882 | the first element of a key, of a count up to 32, stays sparse with the default limit |
| `HllSparseSize.FindBefore` | redis-3.0/src/hyperloglog.c:667-689 | the scan for neighbours starts at the opcode just before the one found |
| `HllSparseSize.MergeSettles` | redis-3.0/src/hyperloglog.c:831-861 | the scan leaves opcodes none of which can be merged with its neighbour, five less one for every merge, or up to the end |
| `HllSparseSize.UpdateSettles` | redis-3.0/src/hyperloglog.c:764-861 | so the size of a sparse result is that of the string with the replacement less one byte for every merge |
| `HllMethods.SparseAdd` | redis-3.0/src/hyperloglog.c:638-882 | the code path by path is the function `SparseAdd`, whose registers, encoding and size `SparseAddOK`, `PromotesExactly` and `UpdateSettles` say |
| `HllSums.PowersTable` | redis-3.0/src/hyperloglog.c:977-981 | entry j is 2^-j |
| `HllSums.DenseSum` | redis-3.0/src/hyperloglog.c:511-541 | the unrolled loop gives the exact sum of 2^-reg and the number of zero registers |
| `HllSums.DenseSumGeneric` | redis-3.0/src/hyperloglog.c:543-554 | so does the generic loop |
| `HllSums.SparseSum` | redis-3.0/src/hyperloglog.c:888-918 | so does the loop over opcodes; `invalid` exactly when they do not cover the registers |
| `HllSums.RawSum` | redis-3.0/src/hyperloglog.c:928-954 | so does the loop over eight registers at a time |
| `HllSums.SumsAgree` | redis-3.0/src/hyperloglog.c:986-995 | for equal registers all four give the same pair |
| `HllHash.PatLenIs` | redis-3.0/src/hyperloglog.c:444-470 | the count is one more than the zero bits from bit 14 up to the first one, 50 if there is none |
| `HllHash.HllPatLen` | redis-3.0/src/hyperloglog.c:444-470 | the loop returns the register and that count |
| `HllMerge.Merge` | redis-3.0/src/hyperloglog.c:1044-1083 | fails exactly on opcodes that do not cover the registers; otherwise every register becomes the maximum |
| `HllMerge.MergeAll` | redis-3.0/src/hyperloglog.c:1294-1306 | after the loop over the keys the registers are the maxima over all existing objects |
| `HllMerge.PfMerge` | redis-3.0/src/hyperloglog.c:1285-1343 | the destination is dense with the merged registers of all the keys, its own among them |
| `HllMerge.Create` | redis-3.0/src/hyperloglog.c:1089-1119 | the new object is one run of zeros |
| `HllMerge.Semilattice` | redis-3.0/src/hyperloglog.c:1044-1083 | merging is commutative, associative and idempotent, with the empty registers as unit |
| `HllSets.PfAdd` | redis-3.0/src/hyperloglog.c:1155-1192 | the object after all elements, and the reply: the key was created or a register changed |
| `HllSets.AddAllStands` | redis-3.0/src/hyperloglog.c:1171-1183 | adding elements in turn gives the registers of the set with them, through any promotions |
| `HllSets.UnionIsMerge` | redis-3.0/src/hyperloglog.c:1044-1083 | merged registers are those of the union of the sets |
| `HllSets.OneVector` | redis-3.0/src/hyperloglog.c:444-498 | a set of elements has exactly one register vector |
| `HllSets.RunOK` | redis-3.0/src/hyperloglog.c:1155-1343 | over any run of PFADD, PFMERGE and DEL every key's register i is the greatest count among the elements put there that hash to i |
| `HllSets.SameSetSameRegisters` | redis-3.0/src/hyperloglog.c:1155-1343 | keys with equal element sets have equal registers, whatever the order, repeats, merges, encodings and limits |
| `IntsetBytes.DecodeEncode` | redis-3.0/src/intset.c:58-98 | an integer written in two's complement, lowest byte first, in 2, 4 or 8 bytes that fit it reads back |
| `IntsetBytes.PutWide` | redis-3.0/src/intset.c:171-175 | writing an element at the wider width does not touch the bytes of any earlier element at the narrower one |
| `IntsetMoves.ValueEncodingIs` | redis-3.0/src/intset.c:48-56 | the encoding chosen is the least width the value fits |
| `IntsetMoves.Outside` | redis-3.0/src/intset.c:213-215 | a value that needs a wider encoding lies below or above everything present, by its sign |
| `IntsetMoves.WideningStep` | redis-3.0/src/intset.c:171-175 | back to front, a turn of the widening loop overwrites no element that is still to be read and none that was moved |
| `IntsetMoves.WideningEnds` | redis-3.0/src/intset.c:177-182 | and after the last write the elements are the old ones with the value in front or behind |
| `IntsetMoves.AddedElements` | redis-3.0/src/intset.c:228-233 | growing, moving the tail and writing gives the old elements with the value inserted at the place |
| `IntsetMoves.RemovedElements` | redis-3.0/src/intset.c:249-252 | moving the tail and cutting gives the old elements without the one at the place |
| `IntsetMoves.SortedUnique` | redis-3.0/src/intset.c:207-255 | two sorted arrays of one set are equal: the contents are determined by the set |
| `IntsetTable.Intset.constructor` | redis-3.0/src/intset.c:101-106 | empty, 16-bit |
| `IntsetTable.Intset.Resize` | redis-3.0/src/intset.c:109-113 | the bytes there is room for stay; the 32-bit byte count does not wrap below 2^28 elements |
| `IntsetTable.Intset.Write` | redis-3.0/src/intset.c:85-98 | the bytes of one element change and no others |
| `IntsetTable.Intset.MoveTail` | redis-3.0/src/intset.c:186-205 | `memmove` of the tail, overlapping or not |
| `IntsetTable.Intset.Search` | redis-3.0/src/intset.c:119-158 | found exactly if present, with its position; otherwise the insertion point |
| `IntsetTable.Intset.Widen` | redis-3.0/src/intset.c:167-175 | the loop turns every element to the new width |
| `IntsetTable.Intset.UpgradeAndAdd` | redis-3.0/src/intset.c:161-184 | the set gains the value, the width is the value's |
| `IntsetTable.Intset.Add` | redis-3.0/src/intset.c:208-235 | the set gains the value; success exactly if it was absent; width and length exact; sorted order kept |
| `IntsetTable.Intset.Remove` | redis-3.0/src/intset.c:238-255 | the set loses the value; success exactly if it was present; the width stays |
| `IntsetTable.Intset.Find` | redis-3.0/src/intset.c:258-261 | true exactly for members |
| `Bits.CountIsSize` | redis-3.0/src/bitops.c:58-61 | the bit-at-a-time count is the number of positions whose bit is set |
| `Popcount.TableNat` | redis-3.0/src/bitops.c:65-65 | every entry of the table of 256 is the number of set bits of its index |
| `Popcount.WordFields` | redis-3.0/src/bitops.c:87-100 | the three steps on a word count the bits of each of its bytes |
| `Popcount.TopSum` | redis-3.0/src/bitops.c:101-107 | multiplying by 0x01010101 and shifting sums the four bytes without a carry between them |
| `Popcount.BlockIs` | redis-3.0/src/bitops.c:75-108 | a block of seven words counts the set bits of its 28 bytes |
| `Popcount.CountBlock` | redis-3.0/src/bitops.c:75-108 | the block's body computes that |
| `Popcount.RedisPopcount` | redis-3.0/src/bitops.c:61-113 | for every string and address the result is the number of set bits |
| `Bitpos.LoadSkips` | redis-3.0/src/bitops.c:148-156 | a word equals all zeros or all ones exactly when its bytes do |
| `Bitpos.WordBit` | redis-3.0/src/bitops.c:158-173 | bit j of byte i of the last bytes is the bit the scan tests |
| `Bitpos.ScanWord` | redis-3.0/src/bitops.c:186-199 | the scan returns the first wanted bit and never gets past the last bit: the panic is not reached |
| `Bitpos.RedisBitpos` | redis-3.0/src/bitops.c:122-200 | for every string, value and address the result is the first position of the value, zero padded; -1 only for a set bit in zeros |
| `Bitpos.OneAnswer` | redis-3.0/src/bitops.c:115-122 | that determines the result: -1 exactly for a set bit in a string of zeros, the length in bits exactly for a clear bit in a string of ones |
| `Bitop.Lengths` | redis-3.0/src/bitops.c:324-351 | the greatest length, and a least length that is zero as soon as a key is missing |
| `Bitop.WordOp` | redis-3.0/src/bitops.c:374-382 | a word operation is the operation on each of its eight bytes, and touches no others |
| `Bitop.FastPath` | redis-3.0/src/bitops.c:362-422 | the bytes done by words are those of the bytewise operation: all the whole blocks of 32 that the sources share, for at most 16 sources |
| `Bitop.BitopCommand` | redis-3.0/src/bitops.c:313-438 | the result has the greatest length, and a bit is set for AND exactly if it is in every source, zero padded, for OR in at least one, for XOR in an odd number of them, for NOT if it is clear in the one; NOT of several sources is refused |
| `Bitop.OneResult` | redis-3.0/src/bitops.c:313-438 | and it is the only such string |
| `Crc64.TableIs` | redis-3.0/src/crc64.c:44-171 | each of the 256 entries is eight shifts of its index by the polynomial |
| `Crc64.StepIs` | redis-3.0/src/crc64.c:176-179 | a table step is eight one-bit steps |
| `Crc64.FastIsSlow` | redis-3.0/src/crc64.c:173-181 | the table-driven checksum is the bit-at-a-time one for every start and string |
| `Crc64.StepInjective` | redis-3.0/src/crc64.c:176-179 | the step is injective in the state and in the byte |
| `Crc64.StepOnto` | redis-3.0/src/crc64.c:176-179 | and onto: a bijection of the states |
| `Crc64.Chained` | redis-3.0/src/crc64.c:173-181 | the checksum of a concatenation is the checksum of the second part started at that of the first |
| `Crc64.OneByteMatters` | redis-3.0/src/crc64.c:173-181 | changing one byte changes the checksum |
| `Crc64.BurstMatters` | redis-3.0/src/crc64.c:173-181 | two strings of up to eight bytes that lead from one state to the same state are equal |
| `Crc64.CheckValue` | redis-3.0/src/crc64.c:11-11 | the checksum of the digits 1 to 9 is the documented check value |
| `Crc64.ComputeCrc64` | redis-3.0/src/crc64.c:173-181 | the loop computes the checksum |

## Left out

- ClusterElectionRun.ElectionSafety: fixed slot-serving masters known to all, and no crash and restart of a voter (a vote is sent before it is on disk); the fixed set also means that no run contains a takeover: a node outside `masters` never becomes a master that serves slots, and a winner stays what it was.
- ClusterElectionTimes.VotesSpaced: events other than votes and attempts leave `voted_time` and `failover_auth_time` alone, and a node once known stays known.
- ClusterElectionLate.LateVotesBreakSafety: the run has one master and two manual failovers; the second slave starts having heard of epoch 1.
- ClusterClaims.UpdateSlotsConfigWith: the keys in lost slots are deleted by the caller, who gets the list of slots; after an end of the process nothing further is said.
- ClusterConverge.ClaimsConverge: one fixed claim per node with distinct epochs, claimants that stay masters, and a node that survives (`SettledSurvives` says when); role changes in between are only in `ClusterTable`.
- ClusterEpochRun.BumpsBounded: fixed roles and distinct names; epochs are unbounded numbers, the 64-bit counter does not wrap.
- ClusterTable.Cluster.DelNode: the slots a node is migrating to another (`migrating_slots_to`) and failure reports are not modelled.
- ClusterTable.Cluster.SetMaster: the order of a list of slaves is not modelled; nodes are values in a map keyed by name, not shared objects; replication itself is left out.
- Cluster bus: links, handshakes, gossip, failure reports, replica migration, RESET, TAKEOVER and SET-CONFIG-EPOCH are not modelled; other effects of a packet on an election are any change that leaves the election fields alone.
- DictGrowth.RunLoad: runs are adds, finds and deletes; `dictResize`, which shrinks a table, and safe iterators, which hold rehashing up, are outside them.
- DictTable.Dict.Expand: sizes of LONG_MAX and more, where the table size would not be a power of two, are excluded.
- DictTable.Dict.Add: sizes whose double reaches LONG_MAX are excluded and expansion always gets its memory; hash values have 64 bits where the code's have 32, which only adds behaviour; after an entry is linked outside its bucket nothing further is said.
- DictIterRun.ExactlyOnce: between calls the user does not delete the entry the iterator saved as its next, as the source's comment demands, and adds only keys whose bucket number fits an `int`; unsafe iterators and their fingerprints are not modelled.
- Dictionary: keys and values are opaque with a hash function that respects equality; `dictGetRandomKey`, `dictGetSomeKeys`, `dictRelease` and freeing of keys and values are not modelled; a chain is a sequence held in an array of buckets, not linked nodes.
- AofCodec.TruncatedRecovery: argument counts fit an `int` and lengths a `long`, and the file is a prefix of a well-formed one; malformed files are modelled only as far as the loader tells them apart.
- AofLog.ReplayEquivalence: no expires, fsync policy other than `always`; commands other than SELECT, MULTI, EXEC, DISCARD and the rebuilding ones are an arbitrary function of the dataset and selected database that keeps it well-formed, and a command fed is the command that was executed. Inside a transaction the loader may stop at the missing EXEC; `ReplayInTransaction` says what holds then.
- AofFile.LoadAppendOnlyFile: returns the commands in place of running them in a fake client; progress events and the exit after an error are an error value.
- AofServer.Server.FlushAppendOnlyFile: postponing a flush is an outcome given from outside; fsync, its thread and latency sampling are not modelled.
- AofRewrite.RewriteReplays: a sorted set's score is the text that stands for it; formatting of doubles is not modelled.
- AofEmit.RewriteCollection: lists, sets, sorted sets and hashes share one loop over items of one or two arguments; the encodings they are walked through are an arbitrary enumeration.
- AofHandshake.Parent.RewriteBufferWrite: what was written before a short write stays in the temporary file, which is thrown away: the failure outcome of `BackgroundRewriteDone`.
- HllHash.HllPatLen: MurmurHash is a parameter, any function from strings to 64-bit words.
- HllObject.SparseAddOK: the string is valid; corrupted strings are not modelled beyond the lengths that `SparseSum` and `Merge` report.
- HllSums.DenseSum: sums are over exact reals; rounding of doubles, the bias polynomial and the estimate itself are not modelled.
- HyperLogLog objects: the header, the cached cardinality and type checks of keys are not modelled; a string is a value that methods return anew, and the split buffer is spliced as a whole.
- IntsetTable.Intset.Add: fewer than 2^28 elements, below which the 32-bit sizes do not wrap; the reallocated block is a fresh array with the old bytes.
- IntsetTable.Intset.Write: the value fits the width at every call, so the truncating cast is not modelled; bytes are the little-endian ones the code keeps on every host.
- Popcount.RedisPopcount: the address enters only as the alignment it gives; the running total is unbounded.
- Bitop.BitopCommand: key lookup, type errors, and storing or deleting the result are not modelled.
- DumpPayload.CreateDumpPayload: the serialized object is any string; RDB is not modelled.
- DumpPayload.RejectsBurst: changes that straddle the checked bytes and the checksum are not covered, since body and checksum may then be changed consistently.
- Flutter, Swift, GTK and Node files, sockets, event loop, configuration, Windows branches, memory allocation and logging are not modelled.
