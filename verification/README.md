# A verified model of loxilb's concurrent and accounting core

loxilb is a load balancer with a clustered control plane. This project models
the parts of it where correctness is hardest to see from one function at a
time, and proves what they promise over every input and every run:

- **Cluster state** (`ClusterSync`, `ClusterHandler`): updates of an instance's
  role are recorded and put in a one-slot mailbox; one worker takes the marked
  instances, applies their current state and reports it to a hook. The machine
  has every interleaving of updaters, signals, worker steps and failing cloud
  calls; the handler class has the code itself, with interference wherever it
  holds no lock.
- **Peers and connection sync** (`PeerQueue`, `Broker`): the broker's peer list
  follows the node map through a queue, and connection sync visits the peers
  with at most one restart.
- **Address pool** (`Bits`, `IpPool`, `PoolRaces`): the generator's bit
  arithmetic, the sequential search and all interleavings of concurrent calls.
- **Log rotation** (`LogNames`, `LogWriter`, `LogPrune`): names, bytes and which
  backups are removed.
- **IPVS mirroring** (`Ipvs`) and **interface configuration** (`IntfConfig`).
- **Metrics** (`LbTraffic`, `TrafficLaw`, `SharedKeys`, `FlowKeys`, `FlowCount`,
  `FlowTraffic`, `LabelKeys`, `SharedMetrics`, `TrafficDist`): counters that
  reset, vanish and come back are turned into totals whose relation to the
  traffic there was is an exact balance.

`Common`, `Text` and `Sums` hold shared types, strings and order-independent
sums. State that the code updates in place is a class; its methods are proved
against specification functions, and the theorems about runs are lemmas about
these functions.

## What the proofs found

- Connection sync compares the number of all nodes with the number of peers,
  but egress nodes never become peers: with no node work outstanding it is
  refused exactly while there is an egress node
  (`PeerQueue.SyncIsRefusedIffEgress`).
- A peer whose last send failed is meant to end without a client. It keeps one
  exactly if the restart reconnected and then found this node no longer master
  (`Broker.ClientAfterFailedSendIff`).
- An assignment that returns nothing does not mean a full subnet when other
  goroutines draw in between (`PoolRaces.EmptyResultWithFreeAddresses`); it does
  exactly if all they drew is taken (`PoolRaces.EmptyResultMeansFullIff`), and so
  always in sequential use.
- A log whose own extension is `.gz` does not recognise its uncompressed
  backups (`LogNames.OwnBackupsAreRecognised`).
- A comment promises that a failed rotation keeps logging. It does exactly if
  close and reopen work; otherwise no later write ever reaches a file
  (`LogWriter.FailedRotationKeepsLogging`). Two rotations in one millisecond
  lose the first backup (`LogWriter.RotationLosesIffTimeIsTaken`).
- IPVS mirroring notices changed end points only: a change of persistence, mode
  or timeout alone is not followed (`Ipvs.AttributesFollowIff`), and a failed
  listing of services deletes every mirrored rule
  (`Ipvs.FailedSnapshotEmptiesMirror`).
- Exported traffic can exceed the traffic there was, in two ways. A counter that
  cannot be parsed in one sweep loses its baseline and is exported in full again
  (`TrafficLaw.ExportCanExceed`); nothing is counted again exactly if no sweep
  reads a counter without baseline that was accounted for before
  (`TrafficLaw.RecountedIff`).
- And rules that differ only in their path or the end of their port range give a
  shared end point one key, although it has a counter in each: their sweeps export
  packets again and again without any traffic
  (`SharedKeys.SharedKeyExportsPhantoms`). Sweeps without traffic are silent
  exactly if counters under one key agree (`SharedKeys.RepeatIsSilentIff`). While
  each key has one counter and nothing is counted again, no total exceeds the
  traffic (`TrafficLaw.NoTotalExceedsTraffic`).
- A `|` inside a label value would let different labels share one stored metric
  (`LabelKeys.SeparatorConfusesLabels`), but that needs a caller the program does
  not have: the labels the distributions read come from splitting at `|`
  (`SharedMetrics.ProgramCallsAreProper`). For any caller the exact condition is
  `SharedMetrics.AddKeepsShowsIff`.

## Model

| member | source | states |
|---|---|---|
| `ClusterSync.NothingIsForgotten` | pkg/loxinet/cluster.go:575-674 | In every reachable state of every interleaving, a changed instance that is neither marked, taken nor being applied had its recorded state applied by its last pass. |
| `ClusterSync.RecordIsLastDecision` | pkg/loxinet/cluster.go:593-607 | The recorded code is always the code of the recorded name, never the invalid one, and the record is the last decided change. |
| `ClusterSync.DirtyMeansAwake` | pkg/loxinet/cluster.go:607-620 | No wake-up is lost: marked instances imply a pending signal, a woken worker or an updater about to signal. |
| `ClusterSync.RestIsInLine` | pkg/loxinet/cluster.go:644-674 | At rest every instance that ever changed has its recorded state applied and that state was the last one told to the hook. |
| `ClusterSync.HookReportsDecisions` | pkg/loxinet/cluster.go:644-674 | The hook sees an in-order subsequence of the decided changes and never the same state twice in a row, across flip-backs and abandoned passes. |
| `ClusterSync.PassesCollapse` | pkg/loxinet/cluster.go:607-674 | Repeated marks collapse: an instance is applied at most once per change, counting a pending mark. |
| `ClusterSync.AbandonedIsQueuedAgain` | pkg/loxinet/rules.go:3612-3683 | The worker gives up on an instance only after all restarts, and then the instance is marked again with a wake-up on its way. |
| `ClusterSync.CloudIsPreparedFirst` | pkg/loxinet/rules.go:3629-3683 | MASTER is applied on a cloud only with the network prepared or right after a failed prepare of the same attempt; prepares and unprepares alternate. |
| `ClusterSync.StateCodes` | common/common.go:41-50 | The codes 1 to 4 of the five known states, and none for any other text. |
| `ClusterSync.UpdateIsDecided` | pkg/loxinet/cluster.go:577-620 | An update naming a known state other than the recorded one is recorded with its VIP, decided, marked and about to be signalled; any other changes nothing but that it makes the instance known. |
| `ClusterSync.DemotionUnprepares` | pkg/loxinet/rules.go:3674-3679 | The step after applying BACKUP on a cloud leaves its network unprepared; after applying anything else it leaves it as it was. |
| `ClusterSync.PromotionPrepares` | pkg/loxinet/rules.go:3644-3650 | After the prepare step the network is prepared exactly if it was, or MASTER was read on a cloud and the prepare succeeded. |
| `ClusterSync.ReachableInv` | pkg/loxinet/cluster.go:575-674 | The inductive invariant behind these theorems holds in every reachable state. |
| `ClusterSync.QuietRunsAreShort` | pkg/loxinet/cluster.go:644-674 | Once updates stop, the number of steps is bounded by a measure of the state. |
| `ClusterSync.NeverStuck` | pkg/loxinet/cluster.go:644-674 | A running system that is not at rest can always take a step of its own. |
| `ClusterSync.RestIsReached` | pkg/loxinet/cluster.go:644-674 | From every reachable state with the worker running, the protocol alone reaches rest within the measure. |
| `ClusterHandler.EnvironmentObeysRely` | pkg/loxinet/cluster.go:575-622 | Every step of another goroutine changes an instance only by marking it, which is what the unlocked code relies on. |
| `ClusterHandler.CIStateH.constructor` | pkg/loxinet/cluster.go:206-232 | A new handler knows only the default instance, undefined and with the zero VIP, with nothing marked, signalled or told. |
| `ClusterHandler.CIStateH.CIStateGetInst` | pkg/loxinet/cluster.go:172-181 | The recorded state of a known instance, an undefined state and an error for an unknown one. |
| `ClusterHandler.CIStateH.CIStateUpdate` | pkg/loxinet/cluster.go:575-622 | Unknown instances are created, invalid states refused, the same state ignored; a change to one of the five states is recorded with its code by number and its VIP, marked and signalled. |
| `ClusterHandler.CIStateH.RulesApplyClusterState` | pkg/loxinet/rules.go:3629-3683 | Under interference: failure means the three restarts were used and the instance is marked again; an unmarked instance was applied with its present state; prepares balance unprepares; MASTER is applied unprepared only if the prepare of the last attempt made failed; BACKUP leaves a cloud unprepared. |
| `ClusterHandler.CIStateH.ReadAndPrepare` | pkg/loxinet/rules.go:3633-3650 | Under interference: the network is prepared here exactly if MASTER was read on a cloud without one and the prepare succeeded, and the state read is the present one unless the instance is marked. |
| `ClusterHandler.CIStateH.ApplyLocked` | pkg/loxinet/rules.go:3652-3670 | The locked section applies the state and VIP recorded then, and is blocked exactly by a promotion since the first read without a prepared cloud network. |
| `ClusterHandler.CIStateH.SyncOne` | pkg/loxinet/cluster.go:662-671 | Applying one instance under interference: unless it is marked again the last state told to the hook is its present one and a call carries its present VIP; the hook is told exactly news. |
| `ClusterHandler.CIStateH.SyncPass` | pkg/loxinet/cluster.go:644-674 | A pass takes the whole dirty set: afterwards exactly the instances marked since are dirty, every taken instance that is not has its present state as the last told to the hook, nothing is remembered as told without a call, each call is news with the present VIP unless marked since, and there is at most one per instance. |
| `PeerQueue.PeersFollowNodes` | pkg/loxinet/cluster.go:692-723 | In every reachable state, replaying the outstanding work over the peers gives exactly the non-egress nodes, each once. |
| `PeerQueue.CreateNeverFails` | pkg/loxinet/dpbroker.go:802-843 | A queued peer create never meets the duplicate error. |
| `PeerQueue.BarrierSyncsPeers` | pkg/loxinet/dpbroker.go:839-843 | When a barrier has returned and no node operation came after it, the peers are exactly the non-egress nodes. |
| `PeerQueue.SyncIsRefusedIffEgress` | pkg/loxinet/dpbroker.go:545-554 | With nothing outstanding, connection sync is refused exactly if there is an egress node. |
| `PeerQueue.ApplyIsSetWork` | pkg/loxinet/dpbroker.go:802-829 | Over duplicate-free lists a create is set insertion and a remove is set deletion. |
| `PeerQueue.StepKeepsInv` | pkg/loxinet/cluster.go:812-840 | Every node operation, send and worker step keeps the queue and the peers in agreement with the nodes. |
| `PeerQueue.NodesFollowOperations` | pkg/loxinet/cluster.go:692-723 | The node map changes by adding unknown nodes with their egress flag and deleting known ones, and by nothing else. |
| `Broker.DpH.constructor` | pkg/loxinet/dpbroker.go:649-668 | A new broker has no peers and no work. |
| `Broker.DpH.DpWorkOnPeerOp` | pkg/loxinet/dpbroker.go:802-829 | A create appends an absent peer and reports a present one; a remove splices out the first entry and closes its client, or reports an unknown peer; errors change nothing. |
| `Broker.DpH.DpWorkSingle` | pkg/loxinet/dpbroker.go:845-884 | One work item has the effect of its specification on the peers and releases its barrier. |
| `Broker.DpH.DpWorkerBatch` | pkg/loxinet/dpbroker.go:887-911 | A batch takes at most 1024 items from the front of the queue, which others may extend meanwhile, stops early only with all earlier items taken, and acts as their replay, releasing exactly their barriers. |
| `Broker.DpH.VisitPeer` | pkg/loxinet/dpbroker.go:560-630 | A visit connects only without a client, then does what the operation asks for, and drops the client exactly on a failed connect or send. |
| `Broker.OnlyMasterSendsChanges` | pkg/loxinet/dpbroker.go:571-625 | Operation by operation: nothing is sent without a connection; with one, additions and deletions are sent exactly after seeing master, broadcasts and requests always and without looking, unknown operations never. |
| `Broker.DeliveredMeans` | pkg/loxinet/dpbroker.go:613-639 | Delivered means sent without error and answered with 0, failed sent with an error, and a non-master is one that was looked for and not seen. |
| `Broker.AfterVisit` | pkg/loxinet/dpbroker.go:570-640 | Stops on a non-master or with nothing to send, restarts once after a failed send, else goes on, remembering any failure or non-zero reply. |
| `Broker.DpH.SyncNext` | pkg/loxinet/dpbroker.go:557-640 | One turn visits the next peer, restarts it only for the first failed send, or stops with 0 exactly on observing a non-master. |
| `Broker.DpH.DpXsyncRPC` | pkg/loxinet/dpbroker.go:545-646 | The visits made are in order with at most one restart; additions and deletions are sent only after seeing master, the other operations never look; unless the last visit saw a non-master or had nothing to send, every peer was visited, failures or not; 0 exactly if the counts agree and a non-master was observed or all visits delivered with reply 0; every visited peer has a client exactly if its last visit neither failed to connect nor failed to send. |
| `Broker.ClientAfterFailedSendIff` | pkg/loxinet/dpbroker.go:612-640 | A peer whose last send failed ends without a client, except exactly if its restart reconnected and then saw a non-master. |
| `Broker.ClientCanOutliveFailedSend` | pkg/loxinet/dpbroker.go:612-640 | The exception happens: two turns of the loop over one connected peer that return 0 and leave it with a client after a failed send. |
| `Broker.CleanRunVisitsEachOnce` | pkg/loxinet/dpbroker.go:557-646 | A fully delivered run visited every peer exactly once. |
| `Bits.AndMask` | api/ippool/generater.go:52-66 | Masking with ones is the remainder by a power of two. |
| `Bits.OrDisjoint` | api/ippool/generater.go:52-66 | Or-ing host bits into a cleared network is addition. |
| `Bits.RemIsMod` | api/ippool/generater.go:52-66 | The remainder of these theorems is the ordinary one. |
| `IpPool.MaskIsOnes` | api/ippool/generater.go:37-50 | The mask built for a prefix is as many ones as there are host bits. |
| `IpPool.MaskOfPrefix` | api/ippool/generater.go:43-44 | For every prefix length, also of IPv6 networks, the mask is as many ones as there are host bits in the first four bytes. |
| `IpPool.DrawIsOffset` | api/ippool/generater.go:52-66 | The four shifted and masked bytes make up the network address plus the counter modulo the subnet size. |
| `IpPool.BroadcastIsLast` | api/ippool/generater.go:68-75 | The broadcast expression is the last address of the subnet. |
| `IpPool.DottedInjective` | api/ippool/ippool.go:51-76 | The printed form identifies an address, so the pool may be keyed by it. |
| `IpPool.WrapIsInvisible` | api/ippool/generater.go:52-66 | The 32-bit wrap of the counter does not disturb the cycle through the subnet. |
| `IpPool.StartReturns` | api/ippool/ippool.go:61-73 | The first address drawn comes up again after exactly one cycle. |
| `IpPool.CycleCovers` | api/ippool/ippool.go:61-73 | One cycle of draws covers the whole subnet. |
| `IpPool.IPSet.constructor` | api/ippool/set.go:25-29 | A new set is empty. |
| `IpPool.IPSet.Add` | api/ippool/set.go:31-33 | Insertion. |
| `IpPool.IPSet.Remove` | api/ippool/set.go:35-37 | Deletion. |
| `IpPool.IPSet.Contains` | api/ippool/set.go:39-42 | Membership, both ways. |
| `IpPool.IPGenerater.constructor` | api/ippool/generater.go:37-50 | The generator of a parsed network, IPv4 or the first four bytes of an IPv6 one, walks the subnet from its first address. |
| `IpPool.IPGenerater.NextIP` | api/ippool/generater.go:52-66 | Returns the address the counter stands at and advances it with 32-bit wrap. |
| `IpPool.IPGenerater.GetBroadcastIP` | api/ippool/generater.go:68-75 | The last address of the subnet. |
| `IpPool.IPPool.constructor` | api/ippool/ippool.go:31-48 | A new pool for an IPv4 network holds exactly the network and the broadcast address, one for an IPv6 network its text and the broadcast address. |
| `IpPool.NewIPPool` | api/ippool/ippool.go:31-46 | A pool exactly if the network parses. |
| `IpPool.AssignmentAvoidsReserved` | api/ippool/ippool.go:31-76 | From a pool with only the network and broadcast address taken, an assignment is neither, exists exactly if there are more than two addresses, and from the start is the one after the network. |
| `IpPool.FirstAssignment` | api/ippool/ippool.go:31-76 | The first assignment of a new pool for an IPv4 network is the address after the network, and there is none exactly for prefixes of 31 and 32 bits. |
| `IpPool.IPPool.Draw` | api/ippool/ippool.go:52-67 | One draw: the address at the counter, taken if it was free. |
| `IpPool.IPPool.DrawAgain` | api/ippool/ippool.go:61-73 | One turn of the search ends it with a free address or back at the start, or extends the stretch known to be taken. |
| `IpPool.IPPool.AssignNewIPv4` | api/ippool/ippool.go:51-76 | Ends within one cycle and one draw; returns nothing exactly if the whole subnet is taken; otherwise the first free address from the counter on, now taken. |
| `IpPool.IPPool.RetrieveIPv4` | api/ippool/ippool.go:79-86 | Frees the given text and nothing else. |
| `IpPool.IPPool.UpdateAllocateddIPv4` | api/ippool/ippool.go:88-95 | Takes the given text and nothing else. |
| `PoolRaces.AssignmentsAreUnique` | api/ippool/ippool.go:51-95 | In every interleaving two outstanding assignments are never equal. |
| `PoolRaces.ReservedStaysReserved` | api/ippool/ippool.go:31-95 | The network or broadcast address is outstanding only if it was explicitly retrieved before. |
| `PoolRaces.InitIsNewPool` | api/ippool/ippool.go:31-46 | The concurrent pool starts with what a new pool holds. |
| `PoolRaces.FreeAddressIsHandedOut` | api/ippool/ippool.go:51-76 | Under the lock a free address is taken, handed out and ends the call; a taken one leaves the pool as it was and ends the call exactly if it is the first one looked at, drawn again. |
| `PoolRaces.OtherCalls` | api/ippool/ippool.go:79-95 | Handing back, allocating and drawing outside the lock change exactly what they name. |
| `PoolRaces.EmptyResultMissesOnlyForeignDraws` | api/ippool/ippool.go:51-76 | A call that gives up has missed only addresses another goroutine drew meanwhile. |
| `PoolRaces.EmptyResultMeansFullIff` | api/ippool/ippool.go:51-76 | A call that gives up has found a full subnet exactly if every address others drew meanwhile is in the pool. |
| `PoolRaces.EmptyResultWithFreeAddresses` | api/ippool/ippool.go:51-76 | A run in which a call gives up while addresses are free. |
| `LogNames.ExtShape` | pkg/logrotate/logrotate.go:76-79 | Base and extension rejoin to the name, and the extension is a dot and no further dot or slash. |
| `LogNames.FormatParses` | pkg/logrotate/logrotate.go:69-86 | Every formatted time parses. |
| `LogNames.ParsesIffFormatted` | pkg/logrotate/logrotate.go:69-70 | With a dot and three digits a text parses exactly if it is some real time formatted. |
| `LogNames.ParsesWithVariants` | pkg/logrotate/logrotate.go:100-101 | A comma is read like the dot, and as a fraction also a plus sign and two digits, or a minus sign and two zeros. |
| `LogNames.Calendar` | pkg/logrotate/logrotate.go:100-101 | The days of the months, with 29 in February exactly in leap years. |
| `LogNames.FormatOrder` | pkg/logrotate/logrotate.go:69-70 | Lexical order of formatted times is time order. |
| `LogNames.BackupsAreBackupTexts` | pkg/logrotate/logrotate.go:89-102 | Exactly the names made of base, a time that parses (comma and signed fraction included), extension and possibly `.gz` are recognised, apart from a log that is itself a `.gz`. |
| `LogNames.OwnBackupsAreRecognised` | pkg/logrotate/logrotate.go:82-102 | A backup is recognised compressed always, uncompressed exactly if the log is not itself a `.gz`. |
| `LogNames.NameOrderIsTimeOrder` | pkg/logrotate/logrotate.go:82-86 | For different times the order of backup names is the order of times, compressed or not. |
| `LogNames.BackupsBelongToOneLog` | pkg/logrotate/logrotate.go:89-102 | No name is a backup of two logs of a directory. |
| `LogWriter.Writer.constructor` | pkg/logrotate/logrotate.go:116-127 | Opening appends to the existing content and knows its size. |
| `LogWriter.New` | pkg/logrotate/logrotate.go:116-127 | A writer exactly if the file could be opened and examined. |
| `LogWriter.Writer.RotateLocked` | pkg/logrotate/logrotate.go:158-184 | Every outcome of close, rename and reopen: what is on disk, whether a handle is held, and the remembered size. |
| `LogWriter.Writer.Write` | pkg/logrotate/logrotate.go:131-144 | Rotates first exactly if the write would cross the limit of a non-empty file, then appends what the file accepts. |
| `LogWriter.Writer.Close` | pkg/logrotate/logrotate.go:147-156 | The handle is gone. |
| `LogWriter.WriteConserves` | pkg/logrotate/logrotate.go:131-184 | One write appends exactly what it accepts to the bytes of backups and file, whatever fails, if a backup it makes is later than the others. |
| `LogWriter.RunConserves` | pkg/logrotate/logrotate.go:131-184 | For every run whose rotations come at rising times, writes within one millisecond included, backups in time order and the file are the initial content and all accepted bytes, and the remembered size is the file's. |
| `LogWriter.RotationLosesIffTimeIsTaken` | pkg/logrotate/logrotate.go:158-184 | A rotation keeps the number of bytes exactly if no backup has its time. |
| `LogWriter.RunLosesIff` | pkg/logrotate/logrotate.go:131-184 | Over every run the number of bytes never exceeds what was there and accepted, and equals it exactly if every backup made has a new time. |
| `LogWriter.DeadWriterStaysDead` | pkg/logrotate/logrotate.go:131-184 | A writer without a handle takes nothing and changes nothing in any later run. |
| `LogWriter.FailedRotationKeepsLogging` | pkg/logrotate/logrotate.go:135-140 | A write whose rotation fails still reaches the file exactly if close and reopen worked. |
| `LogWriter.WriteThatFits` | pkg/logrotate/logrotate.go:131-144 | Without a limit, within it or at an empty file a write makes no backup and appends what the file accepts, nothing if it is closed. |
| `LogWriter.WriteThatCrosses` | pkg/logrotate/logrotate.go:131-184 | If closing, renaming and reopening succeed, a write that would cross the limit turns the file into the backup of its time and starts a new one with what it writes. |
| `LogWriter.Limits` | pkg/logrotate/logrotate.go:61-67 | The limit in bytes of the default configuration and of none. |
| `LogWriter.RunStaysBounded` | pkg/logrotate/logrotate.go:131-184 | While rotations succeed, from a file within the limit, the file stays within it or holds one write alone. |
| `LogPrune.CollectBackups` | pkg/logrotate/logrotate.go:299-308 | Exactly the readable regular entries that are backups of the log. |
| `LogPrune.SortedIsNewestFirst` | pkg/logrotate/logrotate.go:309-310 | Entries with distinct names are sorted strictly newest first, none lost. |
| `LogPrune.IndexIsRank` | pkg/logrotate/logrotate.go:309-322 | The index of a backup is the number of newer ones. |
| `LogPrune.RemoveExcess` | pkg/logrotate/logrotate.go:316-322 | Removes exactly the backups from the limit on and the old ones. |
| `LogPrune.PruneBackups` | pkg/logrotate/logrotate.go:288-324 | An entry is removed exactly if it is a backup of the log that is too old or has too many newer ones. |
| `LogPrune.RemovedByRule` | pkg/logrotate/logrotate.go:299-322 | Written out over the entries: removed are exactly the readable backups, no directories, that are older than the cutoff or have at least the maximal number of newer ones, where there are such limits. |
| `LogPrune.SurvivorsAreKept` | pkg/logrotate/logrotate.go:288-324 | The newest backups of acceptable age survive, and so do all backups of other logs. |
| `Ipvs.WantedIsEligible` | api/loxinlp/ipvs.go:75-128 | Exactly the eligible services of a snapshot are wanted. |
| `Ipvs.ProtocolsByNumber` | api/loxinlp/ipvs.go:94-105 | Protocols 1, 6, 17 and 132 are mirrored as ICMP, TCP, UDP and SCTP, no others. |
| `Ipvs.EligibleIff` | api/loxinlp/ipvs.go:75-118 | Mirrored are round-robin services of these protocols whose destinations were read and are not empty. |
| `Ipvs.MirrorByField` | api/loxinlp/ipvs.go:87-116 | Key, persistence, full NAT for node ports, timeout and end points of the entry of a service. |
| `Ipvs.RuleByField` | api/loxinlp/ipvs.go:160-164 | The rule of an entry has its attributes and all its end points, in order, each with weight 1. |
| `Ipvs.IPVSH.constructor` | api/loxinlp/ipvs.go:178-184 | Nothing is mirrored at the start. |
| `Ipvs.IPVSH.BuildIPVSDB` | api/loxinlp/ipvs.go:66-131 | Confirms exactly the entries the snapshot has with the same end points and lists exactly the missing ones; an unreadable snapshot does neither. |
| `Ipvs.IPVSH.MarkAll` | api/loxinlp/ipvs.go:140-142 | Every entry is marked and otherwise unchanged. |
| `Ipvs.IPVSH.Sweep` | api/loxinlp/ipvs.go:146-157 | Deletes exactly the marked entries, one hook call each, keeping rules whose deletion failed. |
| `Ipvs.IPVSH.AddAll` | api/loxinlp/ipvs.go:159-173 | Adds the listed entries in order, one hook call each, skipping those whose addition failed. |
| `Ipvs.IPVSH.Tick` | api/loxinlp/ipvs.go:138-174 | The mirrored entries, the installed rules and the number of hook calls after a tick with any hook failures. |
| `Ipvs.TickMirrorsSnapshot` | api/loxinlp/ipvs.go:66-174 | If all hooks succeed the mirrored keys are exactly the wanted entries'; those with the same end points stay, all others are replaced. |
| `Ipvs.TickMirrorsServices` | api/loxinlp/ipvs.go:66-174 | If all hooks succeed exactly the eligible services of the snapshot are mirrored, with exactly their end points. |
| `Ipvs.TickInstallsServices` | api/loxinlp/ipvs.go:138-174 | If services have distinct keys and all hooks succeed, every eligible one has a rule installed that lists exactly its destinations with weight 1, and those not mirrored with the same end points before have the persistence, mode and timeout they ask for. |
| `Ipvs.TickInstallsNothingElse` | api/loxinlp/ipvs.go:138-174 | And if the rules were those of the mirror, nothing else has one. |
| `Ipvs.FailedHooksLeaveNothing` | api/loxinlp/ipvs.go:146-173 | A key that no successful addition names is mirrored exactly if it was and is confirmed, and has a rule exactly if it had one that was not deleted. |
| `Ipvs.AttributesFollowIff` | api/loxinlp/ipvs.go:115-121 | An entry is the snapshot's in every respect exactly if its end points changed or its other attributes did not. |
| `Ipvs.RepeatedTickIsSilent` | api/loxinlp/ipvs.go:138-174 | A tick over a mirrored snapshot makes no hook call and changes nothing. |
| `Ipvs.FailedSnapshotEmptiesMirror` | api/loxinlp/ipvs.go:69-73 | A tick that cannot list the services deletes every mirrored entry. |
| `Ipvs.MirrorIsInstalled` | api/loxinlp/ipvs.go:138-174 | After every run every mirrored entry has its rule installed; if no deletion failed nothing else is installed. |
| `IntfConfig.NlH.constructor` | api/loxinlp/nlp.go:75-87 | No interface is known at the start. |
| `IntfConfig.NlH.ApplyConfigMap` | api/loxinlp/nlp.go:273-320 | What an event makes of the interface it names and which work it does, other interfaces untouched. |
| `IntfConfig.InterfacesAreIndependent` | api/loxinlp/nlp.go:273-320 | An interface's state depends on its own events only. |
| `IntfConfig.RunBalances` | api/loxinlp/nlp.go:273-320 | After every run: successful configurations are in force or ended by a deletion, link losses are answered by route work, waiting or given up with the interface, and waiting implies configured and down. |
| `IntfConfig.RoutesFollowReturn` | api/loxinlp/nlp.go:293-303 | Routes are applied again exactly when an event brings back up a configured interface that was up before. |
| `IntfConfig.LastEventIsRecorded` | api/loxinlp/nlp.go:273-320 | After an event the interface has the state it names, is gone, or is as it was without a configuration directory. |
| `IntfConfig.FullConfigIff` | api/loxinlp/nlp.go:281-316 | With a configuration directory an add event applies the full configuration exactly if none has succeeded in this life of the interface; no other event does. |
| `LbTraffic.Collector.constructor` | api/prometheus/prometheus.go:400-403 | A new collector has no baselines and exports zeros. |
| `LbTraffic.SamplesAreListed` | api/prometheus/prometheus.go:1105-1124 | The samples of a sweep are exactly the readable counters of the listing, packets as packets and bytes as bytes, under the service, end point, protocol and name listed. |
| `LbTraffic.RuleSamplesCount` | api/prometheus/prometheus.go:1113-1124 | Every readable end point is sampled once. |
| `LbTraffic.ProtoByName` | api/prometheus/prometheus.go:1107 | The protocols with counters of their own, by name in any capitals. |
| `LbTraffic.CountersByName` | api/prometheus/prometheus.go:1161-1175 | Which exported counter shows which group. |
| `LbTraffic.NewEndPointIsExported` | api/prometheus/prometheus.go:1122-1147 | A new end point, listed alone, adds its packets and its bytes to all traffic, its protocol and its service. |
| `LbTraffic.Collector.CollectRule` | api/prometheus/prometheus.go:1105-1147 | Samples the readable end points of a rule into baselines and sums of packets and bytes. |
| `LbTraffic.Collector.AddAll` | api/prometheus/prometheus.go:1170-1175 | Adds a sweep's sums to the service counters, service by service. |
| `LbTraffic.Collector.Publish` | api/prometheus/prometheus.go:1161-1175 | Raises every exported counter by its sum of the sweep. |
| `LbTraffic.Collector.CollectLbRuleTraffic` | api/prometheus/prometheus.go:1095-1184 | The first sweep only takes baselines; later ones raise each exported group by the increases of its samples; baselines of unsampled end points are dropped. |
| `TrafficLaw.AccountBalances` | api/prometheus/prometheus.go:1122-1154 | For every history of an end point: exported plus missed plus not yet sampled is actual plus counted again. |
| `TrafficLaw.RecountedIff` | api/prometheus/prometheus.go:1122-1154 | Nothing of an end point is counted again exactly if no sweep after the first reads it alive, without baseline and with traffic accounted for before. |
| `TrafficLaw.ReadableIsNotRecounted` | api/prometheus/prometheus.go:1115-1130 | Nothing is counted again while every sweep can read the counter. |
| `TrafficLaw.ExportNeverExceeds` | api/prometheus/prometheus.go:1095-1168 | While nothing is counted again, no selection of end points has exports above what it carried. |
| `TrafficLaw.ExportIsExactIff` | api/prometheus/prometheus.go:1122-1130 | While nothing is counted again, the export of an end point is exact exactly if no restart or removal found unsampled traffic, no sweep read a restarted counter at or past its predecessor's baseline, and nothing waits. |
| `TrafficLaw.UnreadableCounterIsRecounted` | api/prometheus/prometheus.go:1115-1156 | A counter that is unreadable once is exported in full again. |
| `TrafficLaw.ExportCanExceed` | api/prometheus/prometheus.go:1115-1156 | Any history of an absent end point has a continuation that exports twice what it carried. |
| `TrafficLaw.FirstSweepLeavesAbsent` | api/prometheus/prometheus.go:1130-1135 | Such histories exist: after the first sweep every end point that is not there is absent. |
| `TrafficLaw.SweepAgrees` | api/prometheus/prometheus.go:1122-1156 | After a sweep, keys listed repeatedly included if they show one counter, the collector's baselines are those of the histories. |
| `TrafficLaw.SweepKeepsTotals` | api/prometheus/prometheus.go:1137-1175 | A group's exported value goes on being the sum of its end points' exports. |
| `TrafficLaw.CollectorFollowsHistories` | api/prometheus/prometheus.go:1095-1175 | After every run in which each key shows one counter, the collector's baselines are those of the histories and a group's exported value is the sum of its end points' exports. |
| `TrafficLaw.ExportedNeverExceedsTraffic` | api/prometheus/prometheus.go:1095-1175 | After every run with restarts, removals and unreadable counters in which each key shows one counter and nothing is counted again, a group's exported value is at most the traffic of its end points since the first sweep. |
| `TrafficLaw.NoTotalExceedsTraffic` | api/prometheus/prometheus.go:1095-1175 | This for all traffic, every protocol and every service whose rules keep their names. |
| `TrafficLaw.TotalsAreExactIff` | api/prometheus/prometheus.go:1122-1175 | After the first sweep of such a run a group's totals are exact exactly if no event hid traffic of its end points and none waits. |
| `TrafficLaw.ListingIsFaithful` | api/prometheus/prometheus.go:1105-1124 | A listing that shows the living, readable counters gives the samples of these theorems. |
| `TrafficLaw.CollectRun` | api/prometheus/prometheus.go:1095-1175 | The collector given the listings of a run exports, group by group, what these theorems speak of. |
| `TrafficLaw.ListedTotalsNeverExceed` | api/prometheus/prometheus.go:1095-1175 | Over the listings of a run in which each key shows one counter and nothing is counted again, no total exceeds the traffic of its members. |
| `SharedKeys.SilentIff` | api/prometheus/prometheus.go:1122-1130 | A sweep exports nothing exactly if no sample adds anything. |
| `SharedKeys.RepeatKeepsBaselines` | api/prometheus/prometheus.go:1122-1154 | A sweep over the same samples leaves the same baselines, so what it exports comes again each time. |
| `SharedKeys.RepeatIsSilentIff` | api/prometheus/prometheus.go:1112-1130 | A sweep over the same samples, that is without traffic, exports nothing exactly if counters under one key agree. |
| `SharedKeys.RepeatsAddUp` | api/prometheus/prometheus.go:1122-1175 | Each of any number of such sweeps exports the same again. |
| `SharedKeys.SharedKeyExportsPhantoms` | api/prometheus/prometheus.go:1112-1130 | Two rules that differ in their path and share an end point export 100 packets per sweep without traffic. |
| `FlowKeys.ParseInvertsMake` | api/prometheus/prometheus.go:1359-1365 | Parsing a key gives back the fields exactly if none holds the separator, else nothing. |
| `FlowKeys.KeyIdentifiesConnection` | api/prometheus/prometheus.go:949-952 | Separable connections with one key agree in addresses, ports, protocol and service. |
| `FlowCount.CountFlow` | api/prometheus/prometheus.go:1220-1247 | One entry raises exactly the counts it belongs to. |
| `FlowCount.CountFlows` | api/prometheus/prometheus.go:1218-1249 | The counts of a table and the keys of its live entries. |
| `FlowCount.CountIsSize` | api/prometheus/prometheus.go:1220-1247 | A count is the number of entries of its kind. |
| `FlowCount.KindsOfEntry` | api/prometheus/prometheus.go:1220-1246 | Which entries are closed, live, new, failed, and of which protocol and service, by the entry's texts. |
| `FlowCount.CountDeparted` | api/prometheus/prometheus.go:1252-1266 | The number of keys gone since the last sweep. |
| `FlowCount.Counter.constructor` | api/prometheus/prometheus.go:397-398 | All counters start at zero with no remembered keys. |
| `FlowCount.Counter.ActiveConntrackCount` | api/prometheus/prometheus.go:1218-1317 | Every gauge and counter after a sweep, and the remembered keys. |
| `FlowCount.NewFlowsAreNewKeys` | api/prometheus/prometheus.go:1224-1229 | Arrivals counted are at least the new keys, and exactly these if and only if no new key repeats. |
| `FlowCount.ActiveIsLiveKeys` | api/prometheus/prometheus.go:1230-1239 | The active gauge is the number of remembered keys exactly if no live key repeats. |
| `FlowCount.DistinctConnectionsDoNotRepeat` | api/prometheus/prometheus.go:949-952 | Tables of distinct separable connections list every key once. |
| `FlowCount.ServicesAddUp` | api/prometheus/prometheus.go:1294-1306 | In a sweep the per-service requests and errors add up to the totals. |
| `FlowCount.ServicesAddUpOverRun` | api/prometheus/prometheus.go:1276-1306 | Over every run the per-service request and error counters add up to the total counters. |
| `FlowCount.FlowsBalance` | api/prometheus/prometheus.go:1218-1317 | After every run requests are departures plus the flows still there, exactly if no sweep listed a new key twice, and never less. |
| `FlowCount.ArrivalsAndLeavesAlternate` | api/prometheus/prometheus.go:1252-1266 | Every key leaves once per arrival, except while it is there. |
| `FlowCount.DeparturesAreLeaves` | api/prometheus/prometheus.go:1252-1266 | The departures counted are the leaves of all keys, each counted once. |
| `FlowTraffic.Collector.constructor` | api/prometheus/prometheus.go:397-398 | Every counter shows zero. |
| `FlowTraffic.Collector.Enter` | api/prometheus/prometheus.go:1420-1446 | One increase raises its pair, its end point and its client. |
| `FlowTraffic.Collector.VisitFlow` | api/prometheus/prometheus.go:1383-1447 | What one connection adds, nothing if it did not move, and whether it counts as a reset. |
| `FlowTraffic.Collector.ProcessedStatistic` | api/prometheus/prometheus.go:1367-1480 | A sweep visits every connection once, in any order, adds their increases and counts the resets. |
| `FlowTraffic.PairOfConnection` | api/prometheus/prometheus.go:1420-1422 | Traffic is counted for the service, client and end point of its connection, if these have no separator in them. |
| `FlowTraffic.BackwardsIff` | api/prometheus/prometheus.go:1397-1399 | A connection counts as reset exactly if one of its counters is below that of the last sweep. |
| `FlowTraffic.NewConnectionIsCounted` | api/prometheus/prometheus.go:1383-1441 | A new connection, alone in the table, raises its pair, end point and client by its bytes and packets. |
| `FlowTraffic.EndpointIsMarginal` | api/prometheus/prometheus.go:1420-1441 | Over every run the bytes of an end point are the sum of its interactions over clients. |
| `FlowTraffic.ClientIsMarginal` | api/prometheus/prometheus.go:1420-1441 | Over every run the packets of a client are the sum of its interactions over end points. |
| `FlowTraffic.ExportsFinalReadings` | api/prometheus/prometheus.go:1383-1412 | In bytes and in packets, what is exported for a key is the final reading of every life of its counter and the present one. |
| `FlowTraffic.SweepAddsGains` | api/prometheus/prometheus.go:1383-1447 | The order in which a sweep visits connections does not matter. |
| `FlowTraffic.PairIsSumOfConnections` | api/prometheus/prometheus.go:1383-1447 | After every run a pair's byte and packet counters are the sums of what its connections exported. |
| `LabelKeys.KeyDeterminesLabels` | api/prometheus/prometheus.go:475-482 | Labels free of separators are determined by the stored text, in whatever orders they were written. |
| `LabelKeys.KeyText` | api/prometheus/prometheus.go:475-482 | The text of a metric with no, one and two labels. |
| `LabelKeys.SeparatorConfusesLabels` | api/prometheus/prometheus.go:475-482 | Two different sets of labels with one text; it takes a caller that passes a separator in a label. |
| `LabelKeys.PrefixIsOfName` | api/prometheus/prometheus.go:659-660 | Selecting by a prefix of the text is selecting by the name. |
| `SharedMetrics.Store.constructor` | api/prometheus/prometheus.go:463-473 | The store starts empty. |
| `SharedMetrics.Store.AddLabeledMetric` | api/prometheus/prometheus.go:463-473 | A call raises the metric under its text or stores a new one. |
| `SharedMetrics.Store.GenerateLabelsKey` | api/prometheus/prometheus.go:475-482 | The text written for any order of the labels. |
| `SharedMetrics.AddRaises` | api/prometheus/prometheus.go:463-473 | A call raises the answers of the service and end point it finds under its text, and no others. |
| `SharedMetrics.AddKeepsShowsIff` | api/prometheus/prometheus.go:463-473 | A call keeps the store true to the increments exactly if it adds nothing or finds a metric of the same service and end point. |
| `SharedMetrics.RunShows` | api/prometheus/prometheus.go:463-482 | After every run of calls whose interaction labels are clean, in any label orders and with any labels on other metrics, the store answers as the increments do. |
| `SharedMetrics.InteractionLabelsAreClean` | api/prometheus/prometheus.go:1420-1443 | Labels taken from a connection key are free of the separator. |
| `SharedMetrics.InteractionBucket` | api/prometheus/prometheus.go:659-665 | An interaction in bytes counts for the connection's service, or the default one, and its end point; one in packets is ignored. |
| `SharedMetrics.AmountAnswers` | api/prometheus/prometheus.go:671-672 | An amount answers for its own service and end point and for no other. |
| `SharedMetrics.ProgramCallsAreProper` | api/prometheus/prometheus.go:1443-1471 | Every call the program makes meets the condition of these theorems. |
| `TrafficDist.Collect` | api/prometheus/prometheus.go:657-676 | The sums per service and per end point, and exactly the end points that occur. |
| `TrafficDist.AddEntry` | api/prometheus/prometheus.go:667-673 | One entry raises its service and its end point and no other. |
| `TrafficDist.GetEpDistTrafficVecSM` | api/prometheus/prometheus.go:651-693 | For exactly the end points that occur: their sums and their shares of the service. |
| `TrafficDist.GetServiceDistTrafficVecSM` | api/prometheus/prometheus.go:695-733 | For exactly the services that occur: their sums and their shares of all traffic. |
| `TrafficDist.SumAll` | api/prometheus/prometheus.go:719-723 | The traffic of all services. |
| `TrafficDist.RatioIsPart` | api/prometheus/prometheus.go:682 | A ratio times the total is the value, and there is none for a total of zero. |
| `TrafficDist.DipsAddUp` | api/prometheus/prometheus.go:672-673 | The end points of a service add up to the service. |
| `TrafficDist.EndpointRatiosAddUp` | api/prometheus/prometheus.go:678-690 | The ratios returned for a service add up to 1 if it had traffic and are no numbers otherwise. |
| `TrafficDist.ServiceRatiosAddUp` | api/prometheus/prometheus.go:719-731 | The ratios returned for the services add up to 1 if there is traffic and are no numbers otherwise. |
| `TrafficDist.ReadersSumIncrements` | api/prometheus/prometheus.go:463-482 | After every run of calls whose interaction labels are clean the readers' sums are the sums of the increments. |
| `TrafficDist.ProgramReadersSumIncrements` | api/prometheus/prometheus.go:1443-1471 | After every run of the program's calls the readers' sums are the sums of the increments, whatever the services are called. |

## Left out

- Names of instances, states, protocols and the like are enumerated where the code compares them with fixed strings.
- The rules, firewall entries and virtual addresses that applying a cluster state changes (pkg/loxinet/rules.go beyond the restart loop).
- BFD sessions, cluster routes and start-up in pkg/loxinet/cluster.go: calls into other systems.
- Broker.DpH.DpXsyncRPC: keeps the list of peers fixed during a call; the worker takes no part in its lock and can splice the list between two visits.
- The contents of synchronised connections and the RPC transport; connect, master and reply outcomes are arbitrary.
- Other work kinds of the broker (ports, routes, rules): forwarded to a data plane that is not part of this model.
- `IPSet.GetAll` and `CheckSubnetAndUpdateIPPool`: a listing, and a subnet test followed by the modelled update.
- `IPSet.IsEqual`: its result sets are never initialised, so only the equal case can run.
- `IPGenerater.NextIP` is one step here; its compare-and-swap loop retries until it is.
- Parsing a CIDR text: the pool takes the parsed network, or none for a text that does not parse.
- Compression of backups, the sweeper and the other rotation entry points (pkg/logrotate/logrotate.go:186-286); a backup's bytes are those before compression.
- LogNames.BackupsBelongToOneLog: names without a slash, since the files are those of one directory.
- LogWriter.Writer.RotateLocked: assumes nobody else writes to or truncates the file, so a reopened file has the bytes the writer left.
- LogPrune.PruneBackups: the cutoff time is an input; calendar arithmetic on the current time is not modelled, and failed removals are ignored as the code ignores them.
- Ipvs.TickMirrorsServices: service keys are distinct in a snapshot, as the kernel keeps them.
- Executing the configuration scripts of interfaces; their outcome is an input.
- Parsing `packets:bytes` texts and 64-bit wrap-around of counters: a counter is a pair of natural numbers or unreadable.
- Baselines in LbTraffic are keyed by the fields of the end-point key, not by their concatenation.
- FlowTraffic.ExportsFinalReadings: about the tables the sweep is given; the hourly reset that empties the table between sweeps makes a connection absent for a sweep (api/prometheus/prometheus.go:959-973).
- Load-distribution gauges of the connection sweep: the same division as in the modelled distributions, of the present counters.
- Firewall drop counters: differences of one counter per rule without a baseline-only first sweep, beside a shared metric that adds the whole counter each time.
- Host counts, LCU and system metrics: stateless readings of other gauges.
- SharedMetrics.ProgramCallsAreProper: amounts are natural numbers, so the calls that add ratios to other metrics are represented by their labels only.
- The store's unlabelled metrics and gauges that are set rather than added to: no distribution reads them.
- Floating point: increments are natural numbers and ratios exact reals.
- The order of end points in a distribution list; the result is a map from end point to share.
