# Verification of the OVS-DPU datapath

A Dafny model of the userspace datapath of the Open vSwitch copy in `openvswitch-2.17.2-cq-dpu`, of the vhost port code
beside it, and of the HOPA path probes in `repath_cp`, with proofs of what this code promises. `dafny verify
dfyconfig.toml` checks it all.

Code that updates structures, arrays and counters in place is modelled by classes and methods with the same branches and
loops; each method is proved against a specification, and the lemmas beside it say what the specification means. The
threads of the reconfiguration protocol form a transition system.

| file | what it models |
|---|---|
| `Reconfig.dfy`, `ReconfigSafety.dfy`, `ReconfigProgress.dfy` | the reconfiguration of PMD threads: the main thread's six steps, private and shared lists, reload flags, ports, XPS counters, in all interleavings; what every state keeps, what holds at the end, and that the end can always be reached |
| `Scheduler.dfy`, `SchedulerBound.dfy` | the assignment of rx queues to PMD threads: pinning, isolation, round robin, least loaded first; a bound on its result |
| `Words.dfy`, `PackedKeys.dfy` | miniflows: packed keys and masks, mask generation, rule matching |
| `FlowModel.dfy`, `Dpcls.dfy` | what a flow matches; the classifier with its subtables |
| `SimpleMatch.dfy` | the 64-bit simple match mark, in both byte orders, and the flows for which it decides |
| `FlowCaches.dfy`, `SmcBucket.dfy`, `CacheAgreement.dfy` | flow table, exact match cache, signature match cache, simple match table, reference counts; a PMD thread that has these and a classifier for each port, and that they agree |
| `PipelineSpec.dfy`, `Pipeline.dfy` | a batch of packets through caches, classifier, upcalls and flow batches, on the arrays the code uses |
| `OffloadMarks.dfy` | hardware offload: megaflows, marks, the flows that carry them, the item queues |
| `Meter.dfy` | meters: token buckets in 32- and 64-bit arithmetic (OpenFlow Switch Specification 1.3, section 5.7) |
| `TxRemap.dfy`, `VhostSend.dfy` | vhost ports: tx queue mapping, transmission and its accounting |
| `Probe.dfy` | choice of the best path by probes |
| `Base.dfy` | shared types and sequence functions |

What the code asks of its callers is a precondition: flows given to the flow table are pairwise disjoint (comment at
dpif-netdev.c:10091), meter rates are positive (the setup divides by them), a batch sent on a running device is not
empty. Answers of code outside the model - cache positions of a hash, the hardware, upcalls, the guest, QoS policies,
clocks - are parameters, or parts of the packet they are about, and all values are allowed.

Packets have the fragment bits that Open vSwitch gives them (flow.h is not part of this model): none unless the type is
IPv4 or IPv6, the first bit for every fragment, the second as well for all but the first fragment.

## Where the code does not do what it says

- `emc_insert()` says that it replaces an entry that is not alive if there is one; its last condition can pick a live
  entry of smaller hash instead (`FlowCaches.DeadVictimIff` has the exact condition, `FlowCaches.LiveVictim` such
  entries).
- Simple match takes it that every flow matches the Ethernet type and, for IP packets, the fragment bits, but does not
  check it. It answers as the full flow table for all packets of a port exactly if the flows of the port match enough
  of these two (`FlowCaches.SimpleRightIffExact`); flows that match them as assumed do, whatever their type
  (`SimpleMatch.MatchedFieldsExact`). A flow for IPv4 packets that leaves the fragment bits open misses fragments
  (`SimpleMatch.FragmentMissed`).
- The clamped time of a meter is meant to fill any bucket; it does exactly if the filling time fits the 32 bits it is
  stored in (`Meter.SetupClampIff`), and a slow band with a large burst has its time cut to 704 milliseconds
  (`Meter.ClampShort`). The 64-bit refill can wrap for rates above 2^31 (`Meter.NoWrapIff`, `Meter.FastWraps`).
- Tx queue 0 of a vhost port is said to be enabled by default if it was not disabled. It is if no event of the guest
  named it or mapped it with the others (`TxRemap.VhostPort.Reconfigure`): an event for another queue that comes first
  leaves it out (`TxRemap.QueueZeroLeftOut`).
- Before all paths are probed, an unprobed path can win over a probed one (`Probe.PartlyProbedIff`,
  `Probe.UnprobedChosen`); repath packets meant for the best path never go out on it (`Probe.RepathMissesBestPath`).

## Model

| member | source | states |
|---|---|---|
| ReconfigSafety.InvKept | openvswitch-2.17.2-cq-dpu/dpif-netdev.c:6383-6569 | every step of the main thread or of a PMD thread keeps the invariant; at its centre: outside a reload a PMD without `need_reload` has private lists equal to the shared ones |
| ReconfigSafety.RunOk | openvswitch-2.17.2-cq-dpu/dpif-netdev.c:6828-7013 | the invariant holds in every state of every interleaving |
| ReconfigSafety.ExclusivePolling | openvswitch-2.17.2-cq-dpu/dpif-netdev.c:7608-7642 | no rx queue is ever in the shared or private poll lists of two PMDs, and whatever a PMD refers to exists |
| ReconfigSafety.ReconfigureUnused | openvswitch-2.17.2-cq-dpu/dpif-netdev.c:5397-5451 | when `port_reconfigure` runs on a port no PMD refers to it in any list, and all counters it frees and zeroes are zero |
| ReconfigSafety.DestroyUnused | openvswitch-2.17.2-cq-dpu/dpif-netdev.c:6431-6468 | a port taken out of the datapath is destroyed only when no PMD refers to it |
| ReconfigSafety.CountersExact | openvswitch-2.17.2-cq-dpu/dpif-netdev.c:8597-8662 | `txq_used[q]` is always the number of cached tx ports that hold queue `q` |
| ReconfigSafety.ScheduleInForce | openvswitch-2.17.2-cq-dpu/dpif-netdev.c:6495-6569 | when a reconfiguration ends, each PMD polls exactly the queues that the schedule gives it |
| ReconfigSafety.TxInForce | openvswitch-2.17.2-cq-dpu/dpif-netdev.c:6547-6569 | and each PMD that polls a queue, and the non-PMD entry, has exactly the ports of the datapath in its tx cache; the caches of the others hold no other ports |
| ReconfigSafety.DestroyExact | openvswitch-2.17.2-cq-dpu/dpif-netdev.c:2314-2340 | exactly the ports taken out of the datapath are destroyed |
| ReconfigSafety.MarkedReconfigured | openvswitch-2.17.2-cq-dpu/dpif-netdev.c:6406-6468 | a port that is new or marked for reconfiguration is reconfigured with success before the reconfiguration ends, or leaves the datapath |
| ReconfigProgress.NeverStuck | openvswitch-2.17.2-cq-dpu/dpif-netdev.c:6383-6569 | from every state of every run, steps of the main thread and the PMD threads lead to the end of the reconfiguration |
| ReconfigProgress.Acknowledge | openvswitch-2.17.2-cq-dpu/dpif-netdev.c:6828-7013 | a PMD asked to reload can go through its reload and be acknowledged, whatever it was doing |
| ReconfigSafety.LoadKept | openvswitch-2.17.2-cq-dpu/dpif-netdev.c:6744-6857 | loading lists, by a PMD or for the non-PMD entry, keeps the invariant, with the tx queue ids given back |
| ReconfigSafety.PickKept | openvswitch-2.17.2-cq-dpu/dpif-netdev.c:8620-8662 | taking a tx queue id, and giving back expired ones, keeps the invariant |
| ReconfigSafety.UseTxExact | openvswitch-2.17.2-cq-dpu/dpif-netdev.c:8618-8662 | an id still alive is kept and nothing changes; otherwise the PMD gets the first tx queue that the fewest other PMDs use, and every other id of it that has expired is given back |
| ReconfigSafety.DropStaleKept | openvswitch-2.17.2-cq-dpu/dpif-netdev.c:6351-6378 | removing stale ports from the shared lists keeps the invariant |
| ReconfigSafety.DropStaleExact | openvswitch-2.17.2-cq-dpu/dpif-netdev.c:6351-6378 | exactly the queues and tx ports of ports that stay and need no reconfiguration are left in the shared lists, and a reload is asked for if anything went |
| ReconfigSafety.DropMovedExact | openvswitch-2.17.2-cq-dpu/dpif-netdev.c:6495-6515 | exactly the queues that the schedule gives to the PMD are left in its shared list |
| ReconfigSafety.TerminateKept | openvswitch-2.17.2-cq-dpu/dpif-netdev.c:7000-7034 | a PMD thread that ends leaves no tx queue id behind |
| ReconfigSafety.FinishDeleteKept | openvswitch-2.17.2-cq-dpu/dpif-netdev.c:7524-7550 | deleting a PMD after its thread has ended keeps the invariant |
| ReconfigSafety.ReconfPortKept | openvswitch-2.17.2-cq-dpu/dpif-netdev.c:6442-6468 | reconfiguring or failing to reconfigure a port keeps the invariant |
| Scheduler.SchedNumaList.Schedule | openvswitch-2.17.2-cq-dpu/dpif-netdev.c:5893-6057 | pinned queues are on their cores and isolate exactly these PMDs; with some PMD not isolated every other queue is on exactly one PMD that is not isolated, on its own node if possible; group scheduling leaves nodes without pinned queues balanced; the queues not pinned are dealt as received or by decreasing cycles, each to the node and PMD that the algorithm gives it after those before: the next in turn, or the first of least load |
| Scheduler.ScheduleDone | openvswitch-2.17.2-cq-dpu/dpif-netdev.c:5893-6057 | the state after the two loops is such a schedule |
| Scheduler.DealtInTurn | openvswitch-2.17.2-cq-dpu/dpif-netdev.c:5980-6044 | on one node with k PMDs, none isolated, the n-th queue in order goes to PMD n % k, but under "cycles" to k - 1 - n % k in every second pass |
| Scheduler.PhaseTurn | openvswitch-2.17.2-cq-dpu/dpif-netdev.c:5804-5849 | whatever PMDs are isolated, the walk stands on the PMD whose turn it is, counted up and down or round among those not isolated |
| Scheduler.LogPlaced | openvswitch-2.17.2-cq-dpu/dpif-netdev.c:5984-6044 | each placement is right by the queues placed so far |
| Scheduler.SchedNumaList.PinPhase | openvswitch-2.17.2-cq-dpu/dpif-netdev.c:5904-5978 | the first loop pins what can be pinned, keeps the others in order, loses no queue and isolates as asked |
| Scheduler.SchedNumaList.AssignPhase | openvswitch-2.17.2-cq-dpu/dpif-netdev.c:5980-6044 | the second loop loses and doubles no queue, keeps to allowed PMDs, keeps nodes balanced, and deals every queue to its right spot |
| Scheduler.SchedNumaList.SelectNode | openvswitch-2.17.2-cq-dpu/dpif-netdev.c:5991-6015 | the own node of a queue if it has a PMD that is not isolated, else the next after the last such choice that has one, whenever there is one |
| Scheduler.SchedNumaList.NextRr | openvswitch-2.17.2-cq-dpu/dpif-netdev.c:5804-5831 | a step of the up-down or wrapping walk; every other PMD comes nearer |
| Scheduler.SchedNumaList.NextNonIsoRr | openvswitch-2.17.2-cq-dpu/dpif-netdev.c:5833-5849 | `2 * n_pmds` steps of the walk find a PMD that is not isolated whenever there is one |
| Scheduler.StepsToBound | openvswitch-2.17.2-cq-dpu/dpif-netdev.c:5804-5849 | from any position and direction every PMD is less than `2 * n_pmds` steps away |
| Scheduler.SchedNumaList.GetLowest | openvswitch-2.17.2-cq-dpu/dpif-netdev.c:5766-5792 | the first PMD that is not isolated and has the least cycles, or the fewest queues |
| Scheduler.SchedNumaList.AddRxq | openvswitch-2.17.2-cq-dpu/dpif-netdev.c:5621-5636 | a queue and its cycles are added to one PMD and to no other |
| Scheduler.CountIsoExact | openvswitch-2.17.2-cq-dpu/dpif-netdev.c:5726-5733 | with `n_isolated` exact, the count of PMDs not isolated is zero exactly if there is none |
| Scheduler.SortByCycles | openvswitch-2.17.2-cq-dpu/dpif-netdev.c:5735-5764 | the sorted queues are the same queues, by decreasing cycles, then by port and queue |
| Scheduler.SortedOrder | openvswitch-2.17.2-cq-dpu/dpif-netdev.c:5735-5764 | a queue before another has more cycles, or as many and a lower port, or these and a lower queue id |
| Scheduler.BalancedStep | openvswitch-2.17.2-cq-dpu/dpif-netdev.c:5766-5792 | one greedy step keeps a node balanced: a PMD's load less its smallest busy queue is at most what any other PMD carries in queues that are no smaller |
| Scheduler.BalancedLoads | openvswitch-2.17.2-cq-dpu/dpif-netdev.c:5766-5792 | on a balanced node taking the smallest busy queue off a PMD leaves no more than any other PMD carries |
| SchedulerBound.GroupNearOptimal | openvswitch-2.17.2-cq-dpu/dpif-netdev.c:5980-6044 | on a balanced node of m PMDs no load exceeds (4m - 1) / 3m times the busiest load of any other assignment of the same queues |
| SchedulerBound.ScheduledNearOptimal | openvswitch-2.17.2-cq-dpu/dpif-netdev.c:5893-6057 | so for every node without pinned queues after group scheduling |
| SchedulerBound.SmallestAtMostThird | openvswitch-2.17.2-cq-dpu/dpif-netdev.c:5980-6044 | the smallest busy queue of a PMD that carries more than the busiest load of some assignment is at most a third of that load |
| SchedulerBound.AssignmentConserves | openvswitch-2.17.2-cq-dpu/dpif-netdev.c:5621-5636 | the loads of any assignment sum to the cycles of the queues |
| PackedKeys.GenMaskUnit | openvswitch-2.17.2-cq-dpu/dpif-netdev.c:10001-10036 | the mask for the i-th selected bit 2^p is 2^p - 1, and no other mask changes |
| PackedKeys.GeneratedMaskFindsField | openvswitch-2.17.2-cq-dpu/dpif-netdev.c:10001-10036 | the population count of packet map AND mask is the slot of the field in the packed packet |
| PackedKeys.MaskUnit | openvswitch-2.17.2-cq-dpu/dpif-netdev.c:3281-3315 | the mask holds exactly the wildcard fields that are not zero, packed in order |
| PackedKeys.MaskedUnit | openvswitch-2.17.2-cq-dpu/dpif-netdev.c:3317-3337 | the masked key holds flow AND mask for exactly the fields of the mask |
| PackedKeys.BuildRule | openvswitch-2.17.2-cq-dpu/dpif-netdev.c:3281-3337 | both units together make a rule that stands for the flow under its mask |
| PackedKeys.RuleMatchesKey | openvswitch-2.17.2-cq-dpu/dpif-netdev.c:10039-10053 | the packed comparison accepts exactly the packets that agree with the flow on every masked bit |
| PackedKeys.UnitAgrees | openvswitch-2.17.2-cq-dpu/dpif-netdev.c:10039-10053 | field by field comparison of one packed unit is agreement of the unpacked fields |
| PackedKeys.WholeMaskIff | openvswitch-2.17.2-cq-dpu/dpif-netdev.c:3281-3315 | a packet agrees with the flow under its whole wildcard mask exactly if the rule accepts it and the packet has no masked bit in fields that make no sense for the flow |
| PackedKeys.WholeMaskForType | openvswitch-2.17.2-cq-dpu/dpif-netdev.c:3281-3315 | so for packets whose fields fit the type of the flow, the rule means its whole mask |
| PackedKeys.AgreesBitwise | openvswitch-2.17.2-cq-dpu/dpif-netdev.c:10039-10053 | packet and flow agree exactly if they do on each single bit of the mask |
| Words.BitsListed | openvswitch-2.17.2-cq-dpu/dpif-netdev.c:10001-10022 | walking a bitmap from its lowest bit lists its bits, each once and in order |
| FlowModel.SamePortApart | openvswitch-2.17.2-cq-dpu/dpif-netdev.c:10085-10100 | flows of one port are disjoint exactly if their rules are |
| Dpcls.Dpcls.Lookup | openvswitch-2.17.2-cq-dpu/dpif-netdev.c:10055-10118 | for each key the rule that a linear scan finds or none; true exactly if all keys have one; the sum of the 1-based positions of the subtables hit; every hit counted in its subtable |
| Dpcls.Dpcls.SubtableLookup | openvswitch-2.17.2-cq-dpu/dpif-netdev.c:10085-10105 | what a subtable lookup owes: a matching rule for each key asked for that has one, other results untouched |
| Dpcls.Dpcls.Insert | openvswitch-2.17.2-cq-dpu/dpif-netdev.c:9971-9981 | adds the rule and keeps masks unique and no subtable empty |
| Dpcls.Dpcls.Remove | openvswitch-2.17.2-cq-dpu/dpif-netdev.c:9983-9999 | removes the rule and keeps masks unique and no subtable empty |
| Dpcls.Dpcls.FindSubtable | openvswitch-2.17.2-cq-dpu/dpif-netdev.c:9792-9845 | the one subtable of a mask, created only if missing |
| Dpcls.Dpcls.Sort | openvswitch-2.17.2-cq-dpu/dpif-netdev.c:9875-9889 | reorders the subtables by past hits and keeps their rules |
| Dpcls.ReorderedRules | openvswitch-2.17.2-cq-dpu/dpif-netdev.c:9875-9889 | a reordered vector is valid and holds the same rules |
| Dpcls.OrderIrrelevant | openvswitch-2.17.2-cq-dpu/dpif-netdev.c:9875-9889 | for disjoint rules the order never changes which rule is found |
| Dpcls.ScanUnique | openvswitch-2.17.2-cq-dpu/dpif-netdev.c:10085-10100 | a scan of disjoint rules has one result |
| SimpleMatch.MarkLEInjective | openvswitch-2.17.2-cq-dpu/dpif-netdev.c:3886-3925 | on little-endian hosts marks are equal exactly if port, type, fragment bits, VLAN id and CFI are |
| SimpleMatch.MarkBEInjective | openvswitch-2.17.2-cq-dpu/dpif-netdev.c:3886-3925 | the same on big-endian hosts |
| SimpleMatch.MarkInjective | openvswitch-2.17.2-cq-dpu/dpif-netdev.c:3886-3925 | on either host, 64-bit marks are equal exactly if what they are computed from is |
| SimpleMatch.SameMarkMatches | openvswitch-2.17.2-cq-dpu/dpif-netdev.c:4016-4055 | a packet with the 64-bit mark of a simple flow is matched by it |
| SimpleMatch.SameMarkOverlap | openvswitch-2.17.2-cq-dpu/dpif-netdev.c:3955-4013 | two simple flows of one 64-bit mark are not disjoint |
| SimpleMatch.SimpleIff | openvswitch-2.17.2-cq-dpu/dpif-netdev.c:4016-4055 | a flow is simple exactly if it is for packets not recirculated, matches VLAN id and CFI, and matches every such packet of its mark |
| SimpleMatch.ExactMatchesSameMark | openvswitch-2.17.2-cq-dpu/dpif-netdev.c:4016-4055 | a simple flow that is exact matches only packets with its mark |
| SimpleMatch.MatchedFieldsExact | openvswitch-2.17.2-cq-dpu/dpif-netdev.c:4030-4038 | a flow that matches the type and, for IP, the fragment bits is exact, of whatever type it is |
| SimpleMatch.MissedIsMatched | openvswitch-2.17.2-cq-dpu/dpif-netdev.c:4016-4055 | for every inexact flow, a packet that can be received, is matched by the flow and has another mark |
| SimpleMatch.FragmentMissed | openvswitch-2.17.2-cq-dpu/dpif-netdev.c:4030-4045 | a concrete flow and fragment |
| SimpleMatch.MarkRightIffExact | openvswitch-2.17.2-cq-dpu/dpif-netdev.c:4016-4055 | equal marks mean a match for all plain packets exactly if the flow matches enough of type and fragment bits |
| FlowCaches.PmdFlows.constructor | openvswitch-2.17.2-cq-dpu/dpif-netdev.c:7436-7490 | a PMD starts with all tables and counters agreeing |
| FlowCaches.PmdFlows.FlowAdd | openvswitch-2.17.2-cq-dpu/dpif-netdev.c:4057-4138 | adds a flow to the flow table, to simple match if simple, queues its offload; counts and references stay exact |
| FlowCaches.PmdFlows.RemoveFlow | openvswitch-2.17.2-cq-dpu/dpif-netdev.c:3031-3050 | takes the flow out of flow table and simple match, marks it dead, keeps it alive for its other holders |
| FlowCaches.PmdFlows.SimpleInsert | openvswitch-2.17.2-cq-dpu/dpif-netdev.c:3955-3985 | the flow joins the simple match table, with reference and port counter |
| FlowCaches.PmdFlows.SimpleRemove | openvswitch-2.17.2-cq-dpu/dpif-netdev.c:3987-4013 | the flow, and no other flow, leaves the simple match table if it was there |
| FlowCaches.PmdFlows.Reclaim | openvswitch-2.17.2-cq-dpu/dpif-netdev.c:2390-2395 | a flow whose count has reached zero is held by no table, cache, item or mark |
| FlowCaches.PmdFlows.Enqueue | openvswitch-2.17.2-cq-dpu/dpif-netdev.c:2639-2659 | an offload item holds its flow |
| FlowCaches.PmdFlows.FinishItem | openvswitch-2.17.2-cq-dpu/dpif-netdev.c:2531-2611 | an item that finishes, in whatever order, gives its reference back; association with a mark takes one, disassociation gives it back |
| FlowCaches.PmdFlows.EmcLookup | openvswitch-2.17.2-cq-dpu/dpif-netdev.c:8186-8201 | a hit is what a scan of the flow table finds now; a miss only if no entry holds the key with a live flow |
| FlowCaches.PmdFlows.EmcChange | openvswitch-2.17.2-cq-dpu/dpif-netdev.c:3338-3357 | one entry changes; it holds the new flow unless that is already released; references stay exact |
| FlowCaches.PmdFlows.EmcInsert | openvswitch-2.17.2-cq-dpu/dpif-netdev.c:3359-3386 | the entry with the key, or else the victim of the replacement policy, gets key and flow; a lookup of the key of a flow of the table then answers that flow |
| FlowCaches.PmdFlows.InsertedFound | openvswitch-2.17.2-cq-dpu/dpif-netdev.c:8186-8201 | whatever else the entries hold, the inserted flow is the only answer |
| FlowCaches.VictimLeast | openvswitch-2.17.2-cq-dpu/dpif-netdev.c:3372-3381 | among entries that are all alive, or all not, the first of those with the least hash is replaced |
| FlowCaches.DeadVictimIff | openvswitch-2.17.2-cq-dpu/dpif-netdev.c:3372-3381 | when the replacement policy spares live entries |
| FlowCaches.LiveVictim | openvswitch-2.17.2-cq-dpu/dpif-netdev.c:3372-3381 | two entries of which it replaces the live one |
| FlowCaches.PmdFlows.EmcClear | openvswitch-2.17.2-cq-dpu/dpif-netdev.c:3338-3357 | clearing an entry gives its reference back |
| FlowCaches.PmdFlows.SmcMatch | openvswitch-2.17.2-cq-dpu/dpif-netdev.c:7952-7985 | whatever flows a stale index leads to, a hit is what a scan of the flow table finds now |
| FlowCaches.PmdFlows.SimpleClassify | openvswitch-2.17.2-cq-dpu/dpif-netdev.c:3926-3953 | if enabled, for plain packets of a port of exact flows the answer of the lookup by 64-bit mark is that of a full scan |
| FlowCaches.AllSimple | openvswitch-2.17.2-cq-dpu/dpif-netdev.c:3947-3953 | equal counts mean that all flows of the port are in the simple match table |
| FlowCaches.SimpleRightIffExact | openvswitch-2.17.2-cq-dpu/dpif-netdev.c:8122-8186 | enabled simple match answers as a full scan for all plain packets of a port exactly if all its flows are exact |
| FlowCaches.PmdFlows.ScanIsOne | openvswitch-2.17.2-cq-dpu/dpif-netdev.c:4057-4138 | at most one flow of the table matches a packet |
| CacheAgreement.Pmd.Classify | openvswitch-2.17.2-cq-dpu/dpif-netdev.c:8101-8230 | in every state, a hit in the exact match or signature match cache is the answer of the port's classifier at that moment, and a miss means that they hold nothing right; the simple match lookup is that answer, hit or miss, if enabled for a port of exact flows |
| CacheAgreement.Pmd.Lookup | openvswitch-2.17.2-cq-dpu/dpif-netdev.c:8352-8360 | the classifier of a port, or its absence, gives the scan results of the rules of the flows of the port |
| CacheAgreement.Pmd.constructor | openvswitch-2.17.2-cq-dpu/dpif-netdev.c:7436-7490 | a PMD starts with no flows and no classifiers, and these agree |
| CacheAgreement.Pmd.FindDpcls | openvswitch-2.17.2-cq-dpu/dpif-netdev.c:2411-2430 | the classifier of a port, created if missing, and no other changes |
| CacheAgreement.Pmd.FlowAdd | openvswitch-2.17.2-cq-dpu/dpif-netdev.c:4057-4138 | the flow joins flow table, classifier and simple match, and every classifier still holds exactly the rules of its port |
| CacheAgreement.Pmd.RemoveFlow | openvswitch-2.17.2-cq-dpu/dpif-netdev.c:3031-3050 | the flow leaves all three, and every classifier still holds exactly the rules of its port |
| CacheAgreement.Pmd.Sort | openvswitch-2.17.2-cq-dpu/dpif-netdev.c:9875-9889 | the subtables of one port are put in the order of their hits, and flow table, caches and classifiers still agree |
| CacheAgreement.Pmd.EmcInsert | openvswitch-2.17.2-cq-dpu/dpif-netdev.c:3359-3386 | an insertion into the exact match cache keeps this agreement |
| CacheAgreement.Pmd.EmcClear | openvswitch-2.17.2-cq-dpu/dpif-netdev.c:3338-3357 | clearing an entry keeps this agreement |
| CacheAgreement.Pmd.Enqueue | openvswitch-2.17.2-cq-dpu/dpif-netdev.c:2639-2659 | queueing an offload item keeps this agreement |
| CacheAgreement.Pmd.FinishItem | openvswitch-2.17.2-cq-dpu/dpif-netdev.c:2531-2611 | finishing any queued item keeps this agreement |
| CacheAgreement.Pmd.Reclaim | openvswitch-2.17.2-cq-dpu/dpif-netdev.c:2390-2395 | releasing a flow that nothing holds keeps this agreement |
| CacheAgreement.ScansAgree | openvswitch-2.17.2-cq-dpu/dpif-netdev.c:8302-8312 | a scan of the flow table and a scan of the rules of the port find the same flow |
| CacheAgreement.RulesDisjoint | openvswitch-2.17.2-cq-dpu/dpif-netdev.c:10085-10100 | the rules of a port are disjoint, as the classifier needs |
| CacheAgreement.AddedRule | openvswitch-2.17.2-cq-dpu/dpif-netdev.c:4057-4138 | adding a flow adds its rule to the rules of its port only |
| CacheAgreement.RemovedRule | openvswitch-2.17.2-cq-dpu/dpif-netdev.c:3031-3050 | removing a flow removes its rule only |
| SmcBucket.Bucket.Insert | openvswitch-2.17.2-cq-dpu/dpif-netdev.c:3430-3474 | the signature gets the index; others keep theirs but for one evicted from a full bucket by a new signature; too large indices change nothing |
| SmcBucket.Bucket.Get | openvswitch-2.17.2-cq-dpu/dpif-netdev.c:3404-3423 | the index of the signature, if there is one |
| SmcBucket.WrittenHeld | openvswitch-2.17.2-cq-dpu/dpif-netdev.c:3453-3473 | writing an entry changes what is held for its new and its old signature only, and hides no other entry |
| PipelineSpec.BatchesInOrder | openvswitch-2.17.2-cq-dpu/dpif-netdev.c:7896-7910 | each flow has one batch with all its packets in order of arrival; at most as many batches as packets |
| PipelineSpec.EachPacketOnce | openvswitch-2.17.2-cq-dpu/dpif-netdev.c:8446-8506 | packets dropped, upcalled, lost and batched sum to the batch, and the batched ones to the hit counters |
| PipelineSpec.FlowOfIs | openvswitch-2.17.2-cq-dpu/dpif-netdev.c:8101-8230 | the flow in whose batch a packet ends is that of its first hit: hardware, simple match, exact match cache, signature match cache, classifier, repeated lookup |
| Pipeline.Input.Run | openvswitch-2.17.2-cq-dpu/dpif-netdev.c:8446-8506 | the executed batches are those of processing the packets one by one, one for each flow with all packets that end there, in order; dropped, upcalled and lost packets and all counters are as they should be; no batch pointer is set when the first batch is executed |
| Pipeline.Input.DfcProcessing | openvswitch-2.17.2-cq-dpu/dpif-netdev.c:8101-8230 | packets before the first miss are batched at once, later ones have places in the flow map in order of arrival; the missed ones are at the front with keys and places |
| Pipeline.Input.EnqueueClassified | openvswitch-2.17.2-cq-dpu/dpif-netdev.c:8061-8084 | a classified packet goes to its batch or to the next place in the flow map |
| Pipeline.Input.SmcLookupBatch | openvswitch-2.17.2-cq-dpu/dpif-netdev.c:7929-7998 | hits fill their places, the rest is moved to the front with keys and places still in step |
| Pipeline.Input.FastPathProcessing | openvswitch-2.17.2-cq-dpu/dpif-netdev.c:8325-8440 | every place of the flow map ends with the flow of its packet; the others are upcalled or lost, and counted so |
| Pipeline.Input.Upcalls | openvswitch-2.17.2-cq-dpu/dpif-netdev.c:8360-8408 | each missed key gets the rule of the repeated lookup, or its packet is upcalled or lost |
| Pipeline.Input.QueueBatch | openvswitch-2.17.2-cq-dpu/dpif-netdev.c:7896-7910 | the packet joins the batch of its flow, and batch pointers and batches keep agreeing |
| Pipeline.Input.ResetPointers | openvswitch-2.17.2-cq-dpu/dpif-netdev.c:8489-8500 | all batch pointers are reset |
| Pipeline.KeptIsPos | openvswitch-2.17.2-cq-dpu/dpif-netdev.c:7986-7996 | the compacted index map lists the places of exactly the packets still pending |
| OffloadMarks.Offload.Put | openvswitch-2.17.2-cq-dpu/dpif-netdev.c:2733-2811 | when it succeeds, what it does to the marks in each case, including failed hardware puts and an empty pool; the assertion of the code holds |
| OffloadMarks.Offload.Disassociate | openvswitch-2.17.2-cq-dpu/dpif-netdev.c:2563-2611 | the flow loses its mark; the last flow of a megaflow frees mark and mapping |
| OffloadMarks.Offload.Finish | openvswitch-2.17.2-cq-dpu/dpif-netdev.c:2813-2842 | finishing the first item of any megaflow keeps all invariants, and comes to what putting or deleting its flow comes to; a deleted flow has no mark |
| OffloadMarks.Offload.QueueDelete | openvswitch-2.17.2-cq-dpu/dpif-netdev.c:2925-2940 | the delete item is the last item of its flow |
| OffloadMarks.MarksShared | openvswitch-2.17.2-cq-dpu/dpif-netdev.c:2475-2561 | a mark is allocated exactly if a flow carries it; flows share a mark exactly if they share a megaflow |
| OffloadMarks.NoLeak | openvswitch-2.17.2-cq-dpu/dpif-netdev.c:2863-2922 | with all items finished only flows in the flow table carry marks, and every allocated mark is carried by one |
| Meter.Meter.RunMeter | openvswitch-2.17.2-cq-dpu/dpif-netdev.c:7056-7203 | every bucket is refilled and drained; each packet is kept, or dropped and charged to the highest-rate band it exceeds, the first of these; kept packets stay in order; a batch for which every band has room is kept whole and leaves each bucket refilled at its rate, less the volume |
| Meter.Meter.PassBand | openvswitch-2.17.2-cq-dpu/dpif-netdev.c:7131-7183 | the bucket left, and which packets are noted for the band |
| Meter.Meter.DropCharged | openvswitch-2.17.2-cq-dpu/dpif-netdev.c:7185-7201 | packets are compacted in place and each drop is counted by its band |
| Meter.Meter.constructor | openvswitch-2.17.2-cq-dpu/dpif-netdev.c:7239-7267 | full buckets, default burst sizes, and the largest of the truncated filling times |
| Meter.BandConserves | openvswitch-2.17.2-cq-dpu/dpif-netdev.c:7137-7177 | the volume of the packets a band passes is exactly what leaves its bucket |
| Meter.ExceedsIff | openvswitch-2.17.2-cq-dpu/dpif-netdev.c:7131-7183 | a packet exceeds a band exactly if the bucket does not hold it beside the packets that have passed before |
| Meter.WholeBatchKept | openvswitch-2.17.2-cq-dpu/dpif-netdev.c:7097-7177 | the law of batches that fit, for each band |
| Meter.MeteredRightIffFits | openvswitch-2.17.2-cq-dpu/dpif-netdev.c:7109-7123 | in bits, no bucket is overdrawn by a batch exactly if its volume fits 32 bits |
| Meter.ReceivableFits | openvswitch-2.17.2-cq-dpu/dpif-netdev.c:7109-7123 | the volume of a batch of at most 32 packets of less than 16 MB fits |
| Meter.RateBound | openvswitch-2.17.2-cq-dpu/dpif-netdev.c:7085-7200 | in any run, whatever the times, the accepted volume plus a band's bucket is at most its starting bucket plus rate times the time gone forward |
| Meter.RateBoundElapsed | openvswitch-2.17.2-cq-dpu/dpif-netdev.c:7085-7200 | with time never going back, at most the starting bucket plus rate times elapsed milliseconds |
| Meter.RateBoundReceivable | openvswitch-2.17.2-cq-dpu/dpif-netdev.c:7085-7200 | so for every run of batches that can be received |
| Meter.EachPacketOnce | openvswitch-2.17.2-cq-dpu/dpif-netdev.c:7185-7201 | the packets accepted and the growth of all drop counters, wrap-around included, sum to the batch |
| Meter.NoWrapIff | openvswitch-2.17.2-cq-dpu/dpif-netdev.c:7131-7134 | exactly when no 64-bit refill of a band can wrap |
| Meter.RefillsIdeal | openvswitch-2.17.2-cq-dpu/dpif-netdev.c:7131-7134 | without wrapping a refill is the rate times the milliseconds, up to the bucket size |
| Meter.RefillRightIff | openvswitch-2.17.2-cq-dpu/dpif-netdev.c:7131-7134 | all refills of a band up to the longest time are right exactly if that of the full bucket does not wrap |
| Meter.NoWrapSlow | openvswitch-2.17.2-cq-dpu/dpif-netdev.c:7097-7134 | none can for rates up to 2^31 |
| Meter.FastWraps | openvswitch-2.17.2-cq-dpu/dpif-netdev.c:7097-7134 | a pair of bands for which one can |
| Meter.ClampIff | openvswitch-2.17.2-cq-dpu/dpif-netdev.c:7097-7100 | clamping the time costs every refill less than one rate unit exactly if the longest time reaches the filling time |
| Meter.SetupClampIff | openvswitch-2.17.2-cq-dpu/dpif-netdev.c:7255-7267 | with the longest time that setup leaves, that is so exactly if the filling time of the band fits 32 bits |
| Meter.SetupClampExactIff | openvswitch-2.17.2-cq-dpu/dpif-netdev.c:7255-7267 | if the rate divides the bucket size, no refill changes at all, again exactly if it fits |
| Meter.ClampShort | openvswitch-2.17.2-cq-dpu/dpif-netdev.c:7255-7267 | a band whose filling time of 4294968 seconds is stored as 704 milliseconds |
| Meter.ClampExactIff | openvswitch-2.17.2-cq-dpu/dpif-netdev.c:7261-7267 | clamping changes no refill exactly if the longest time fills the bucket; the same condition if the rate divides the bucket size |
| TxRemap.VhostPort.RemapTxqs | openvswitch-2.17.2-cq-dpu/netdev-dpdk.c:3895-3922 | an enabled queue maps to itself, any other to an enabled one or to none if there is none; redirected queues differ by at most one between enabled queues |
| TxRemap.VhostPort.VringStateChanged | openvswitch-2.17.2-cq-dpu/netdev-dpdk.c:4085-4100 | so after every event, with the enabled queues those enabled last |
| TxRemap.VhostPort.Reconfigure | openvswitch-2.17.2-cq-dpu/netdev-dpdk.c:5016-5038 | and after every change of the number of queues; queue 0 is enabled exactly if it was enabled or not known before |
| TxRemap.VhostPort.TxqMapClear | openvswitch-2.17.2-cq-dpu/netdev-dpdk.c:4008-4017 | clearing forgets the queues in use |
| TxRemap.QueueZeroLeftOut | openvswitch-2.17.2-cq-dpu/netdev-dpdk.c:5028-5031 | a history in which queue 0 is not enabled though no one disabled it |
| TxRemap.SharedStep | openvswitch-2.17.2-cq-dpu/netdev-dpdk.c:3915-3922 | dealing queues out in turn keeps the counts within one |
| VhostSend.VhostDev.Send | openvswitch-2.17.2-cq-dpu/netdev-dpdk.c:2780-2853 | packets sent and dropped sum to the batch, bytes are those of exactly the enqueued packets, drops are counted by stage, each buffer is freed exactly once; bursts go on until all is sent, one takes nothing, or the retries are used up, and as many packets are sent as these bursts take |
| VhostSend.VhostDev.CommonSend | openvswitch-2.17.2-cq-dpu/netdev-dpdk.c:2741-2778 | the packets left after copying, length filter, offload preparation and QoS, and the drops of each stage |
| VhostSend.StagesAtOnce | openvswitch-2.17.2-cq-dpu/netdev-dpdk.c:2741-2778 | the stages, one over what the other left, are one decision for each packet: what is left is the packets with no reason to be dropped, and each drop is counted under its first reason |
| VhostSend.VhostDev.Filter | openvswitch-2.17.2-cq-dpu/netdev-dpdk.c:2550-2576 | in-place compaction keeps the good packets in order and frees the others |
| VhostSend.VhostDev.CopyBatch | openvswitch-2.17.2-cq-dpu/netdev-dpdk.c:2714-2739 | packets are replaced by copies, and the originals freed |
| VhostSend.VhostDev.Enqueue | openvswitch-2.17.2-cq-dpu/netdev-dpdk.c:2805-2834 | a prefix is enqueued, in order, as long as the bursts take; the retries counted are the bursts after the first, and it stops as soon as one of the three reasons holds and not before |
| VhostSend.VhostDev.UpdateTxCounters | openvswitch-2.17.2-cq-dpu/netdev-dpdk.c:2578-2609 | the counters grow by what was sent and dropped |
| VhostSend.EachFreedOnce | openvswitch-2.17.2-cq-dpu/netdev-dpdk.c:2780-2853 | what the stages and the end of a send free is the batch and the copies made, each once |
| Probe.PathRoundTrip | repath_cp/src/hopa_cp.c:209-217 | a probe sent with path number p arrives as path p - 1, and no other number gives that |
| Probe.ProbeRound | repath_cp/src/hopa_cp.c:388-404 | a round of probes covers every path once, from port 5678 on |
| Probe.HopaCp.MinDelayPathId | repath_cp/src/hopa_cp.c:373-386 | the lowest-numbered path of least stored delay |
| Probe.HopaCp.ProbeArrives | repath_cp/src/hopa_cp.c:281-313 | one entry is overwritten, and the best path is chosen anew |
| Probe.ReceiveProbes | repath_cp/src/hopa_cp.c:281-313 | after any run of probes the stored delays are those the run defines, and once all paths have been probed the best path is the lowest-numbered one of least latest true delay |
| Probe.BestPath | repath_cp/src/hopa_cp.c:281-313 | with all paths probed, the choice is the lowest-numbered path of least latest true delay, for any deliveries and any constant clock offset within range |
| Probe.OrderKeptIff | repath_cp/src/hopa_cp.c:305 | two delays are stored in their order exactly if both wrap equally often |
| Probe.PartlyProbedIff | repath_cp/src/hopa_cp.c:6 | before all paths are probed, exactly when the best of the probed paths is chosen |
| Probe.OnlyProbedChosen | repath_cp/src/hopa_cp.c:6 | a single probed path is chosen exactly if its stored delay is below 2^32 - 1, or is that and the path is path 0 |
| Probe.UnprobedChosen | repath_cp/src/hopa_cp.c:6 | an unprobed path is chosen over one of 3.3 seconds |
| Probe.RepathMissesBestPath | repath_cp/src/hopa_cp.c:239-244 | the port of a repath packet never leads to the best path |

## Left out

- Pipeline.Input.Run: executing the actions of a batch or of an upcall is one external step that does not come back into the same call; recirculation is another call.
- Pipeline.Input.Upcalls: what an upcall installs is not derived from the actions; that the repeated lookup may find a rule is one of the answers of a key.
- Meter.RateBoundElapsed: stated for batches whose volume fits 32 bits, which `Meter.ReceivableFits` shows of all batches of at most 32 packets of less than 16 MB; `Meter.MeteredRightIffFits` shows why.
- VhostSend.VhostDev.Send: counters are unbounded here, 64 bits in the code; on a running device the batch is not empty, because the code reads its first packet.
- Scheduler.SchedNumaList.Schedule: completeness and balance of group scheduling are stated while all cycles and the number of queues stay below 2^64 - 1, from which the scan for the least loaded PMD starts; unbalanced counters that wrapped are not described.
- FlowCaches.PmdFlows.FlowAdd: steps under the flow mutex and steps of the PMD are atomic, and memory is given back only after a grace period; the RCU mechanism itself is not modelled.
- FlowCaches.PmdFlows.EmcInsert: the chance of an insertion is not modelled; every insertion may or may not take place.
- FlowCaches.PmdFlows.FinishItem: which items associate and disassociate is the subject of module OffloadMarks.
- ReconfigProgress.NeverStuck: that the steps to the end are there in every state, not that threads are scheduled fairly enough to take them.
- Probe.HopaCp.ProbeArrives: only for ports of the four paths, which is where probes are sent.
- Building the scheduler's lists from the datapath, putting the result in place, the variance estimate and the auto load balancer.
- Bonds, tunnel port caches and the reload of subtable lookup functions.
- Hash values, bucket chains of cmap and hmap, pvector publication, id pools and mpsc queues: abstracted to positions, sets, sequences and free marks.
- Hardware mark lookup, conntrack, miniflow extraction, upcall contents and action execution: external answers.
- Error returns of meter setup for unsupported flags, band types and numbers, and the lookup of meters by id.
- rte_meter policers: the arithmetic is in DPDK, which is not part of this model.
- HOPA injection on receive, repath timers and the one-path check: unfinished in the source, with no settled behaviour.
- The copy in `openvswitch-2.17.2-yy-dpu`, which has the same vhost code.
