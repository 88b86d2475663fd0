# The Unassuming Bridge: a verified model

This project models the kernel half of the Unassuming Bridge, a VLAN-aware learning switch, and proves what it
does over whole runs. Four parts work together: the forwarding database, the frame pipeline, the VLAN and PVID
configuration, and the port slots. The switch follows IEEE 802.1Q-2018 (ingress filtering of section 8.6.2, learning
of section 8.7, dynamic filtering entries of section 8.8.3).

Three layers describe the same switch.

* **The objects.** `ForwardingDb`, `Vlans`, `Buffers`, `NetDevices`, `Bridges` and `Forwarding` hold classes and
  methods that change their fields, arrays and table nodes in place, as the source does. Each method is proved to do
  what a function on values says.
* **The values.** `FdbSpec`, `Config`, `Pipeline` and `Delivery` give those functions. `Commands` says of each
  configuration command what it answers and which bits it changes; `ConfigProofs` and `Effects` prove what the commands
  keep and what they mean for later frames.
* **The runs.** `Runs` puts frames, passing time, the ageing worker, flushes and configuration commands into any
  order. `Ageing` says exactly when the worker's schedule shows. `History` defines the same switch without any table, as
  a function of the past. `WrappingRuns` puts the switch on a clock that wraps. `Tenancies` follows VLAN memberships
  through devices that come and go. `NewBridges` says what frames do at any time since a bridge was created. `Driver`
  ties the objects to the runs.

`ConcurrentFdb`, `StationMoves`, `LoneLearner` and `LoneFlusher` refine the database to single accesses by any number of
learners and a flusher. `TagOrdering` does the same for the writes of one configuration writer beside reading forwarders.

The main result is `Driver.DriveNewBridge`: a new bridge object, on a clock that wraps at 2 * half ticks and with a
worker that runs at least every `gap <= half` ticks, treats every frame of every feasible run exactly as the history of
learnt stations, kept in unbounded time, promises. The history need not know of the worker either, with one exact
exception: a station heard again after its timeout at a moment without memory is learnt if its expired entry still
lingers and not if the worker has collected it.

## Model

| member | source | states |
|---|---|---|
| Driver.DriveNewBridge | kernel/ubr-fdb.c:75-187 | From creation to removal the bridge object, on a clock that wraps, sends every frame of every run where the past alone says: to the port its destination was last heard on in that VLAN if that is recent enough and not purged since, otherwise to the flood vector, always within the VLAN and never back, whatever allocations fail; unless a station is heard again too late and without memory, that past need not know of the ageing worker; in the end every device is exactly, in counts, master, receive hook and flags, what the rest of the system made of it |
| Driver.Drive | kernel/ubr-port.c:17-28 | For any sequence of kernel calls the object yields exactly the outcomes of the run machine on its initial value, and ends in that machine's last state |
| Driver.Perform | kernel/ubr-private.h:185-198 | Each single call takes the object's value to the run machine's next state and yields that step's outcome |
| WrappingRuns.BridgeKeepsItsPromise | kernel/ubr-fdb.c:75-87 | On a wrapping clock with a timely worker the outcomes of a run equal those promised by the past in unbounded time, with failing allocations too; without the worker's runs the promise is the same unless a station is heard too late |
| WrappingRuns.WrappingIsInvisible | kernel/ubr-fdb.c:26-31 | With worker gaps of at most half a revolution and a smaller timeout, wrapped and unbounded runs stay in step, and no reachable entry is older than timeout + gap |
| FdbSpec.WrapAgrees | kernel/ubr-fdb.c:26-31 | Within a revolution after expiry the wrapped signed comparison is right exactly while at most half a revolution has passed since expiry |
| History.RefinesHistory | kernel/ubr-fdb.c:89-187 | Over every run, also with failing allocations, each frame meets the fate that the machine keeping only the past promises |
| History.PromiseNeedsNoWorker | kernel/ubr-fdb.c:75-87 | If no station is heard again after its timeout while memory fails, the machine that knows of no ageing run promises the same |
| History.RevivalByPast | kernel/ubr-fdb.c:103-121 | Whether a frame revives an expired entry can be told from the past alone |
| History.CachedFrame | kernel/ubr-fdb.c:143-186 | While the table holds exactly what the past remembers, looking a frame up in it is looking into the past, whether or not its source can be learnt |
| History.LastHeardMeaning | kernel/ubr-fdb.c:102-126 | What the past remembers of a station is its last hearing not purged since, and conversely |
| History.ToOneselfGoesNowhere | kernel/ubr-fdb.c:143-185 | A frame addressed to its own learnable source is freed and sent to no port, unless the source is new and there is no memory: then it is flooded |
| Runs.NonInterference | kernel/ubr-fdb.c:99-146 | Deleting all frames of other VLANs from any run leaves the outcome of every frame of VLAN v unchanged, also with failing allocations and clones |
| Ageing.AgeingIsInvisible | kernel/ubr-fdb.c:75-87 | Dropping all runs of the ageing worker changes no outcome of a run, even from tables in which more expired entries linger, unless a frame refreshes a lingering entry while memory fails |
| Ageing.AgeingScheduleIsIrrelevant | kernel/ubr-fdb.c:75-87 | Under the same condition two runs that differ only in ageing runs have the same outcomes |
| Ageing.OnlyRevivalsShow | kernel/ubr-fdb.c:102-126 | That condition is exact: the worker's schedule never shows in what lookups find exactly if no frame revives an expired entry while memory fails |
| Ageing.RevivalIsReached | kernel/ubr-fdb.c:113-121 | On any bridge that starts empty any learnable frame gives such a run: heard, then heard again after the timeout without memory |
| Ageing.RevivalChangesDelivery | kernel/ubr-fdb.c:113-121 | A frame that shows it: after a revival the station's frames go to its port alone, after an ageing run before it they are flooded |
| Runs.RunKeepsInv | kernel/ubr-private.h:161-173 | Every reachable state has coherent PVID caches, valid slots, consistent device links and a table of dynamic single-port unicast entries |
| Runs.ReachableIsolation | kernel/ubr-forward.c:85-116 | In every reachable state a frame reaches only members of its own VLAN, never its ingress port, and buffers are conserved |
| Runs.DevicesOverRuns | kernel/ubr-port.c:138-182 | Over every run each device, with counts, master, receive hook and flags, is what others' use makes of it, and with the bridge's part exactly while it is enslaved |
| Runs.CountsOverRuns | kernel/ubr-port.c:142-180 | So over every run the bridge's part in a device's promiscuity and allmulti counts is one exactly while the device is enslaved |
| FdbSpec.LearnKeepsShape | kernel/ubr-fdb.c:89-134 | Serialised learning yields only dynamic entries with one port and a nonzero address whose first octet is even |
| FdbSpec.LearnedEntry | kernel/ubr-fdb.c:95-133 | A source is learnt exactly if it is nonzero with an even first octet and there is memory or it is known, be it expired or moved; that leaves it on exactly the ingress port, stamped now, and nothing else changed |
| FdbSpec.ShapedEgress | kernel/ubr-fdb.c:146-183 | A live known unicast address uses its entry's one port; unknown ones, multicast and broadcast use their flood vectors |
| FdbSpec.GroupLookup | kernel/ubr-fdb.c:147-170 | In any table a group's frames are looked up by network address where they show one, otherwise by link-layer address |
| FdbSpec.StaticEntriesStay | kernel/ubr-fdb.c:29-30 | An entry that is not dynamic is never changed by learning, never ages, and always serves lookups |
| Frames.AddressKinds | kernel/ubr-fdb.c:95-174 | By octets: group addresses have an odd first octet, broadcast is all ones, and a station's address is any other but zero |
| FdbSpec.LiveLearn | kernel/ubr-fdb.c:102-126 | As far as lookups can tell, relearning an expired station is the same as learning it afresh exactly if there is memory for that or no expired entry lingers |
| FdbSpec.LiveEgress | kernel/ubr-fdb.c:165-183 | A lookup treats an expired entry as a miss |
| FdbSpec.FlushIdempotentAndCommutes | kernel/ubr-fdb.c:33-73 | At a fixed time a flush is idempotent and any two flushes commute |
| FdbSpec.FlushExactly | kernel/ubr-fdb.c:49-67 | For every combination of switches a flush takes exactly the entries that meet every criterion switched on, and changes none it leaves |
| FdbSpec.AgedExactly | kernel/ubr-fdb.c:75-87 | An ageing run takes exactly the dynamic entries past their time |
| FdbSpec.OldNeedsDynamicProto | kernel/ubr-fdb.c:55-62 | The age of entries is consulted only when dynamic entries are flushed by protocol |
| ForwardingDb.Fdb.constructor | kernel/ubr-fdb.c:189-205 | A new database is empty |
| ForwardingDb.Fdb.NodeIsOld | kernel/ubr-fdb.c:26-31 | Only dynamic entries age, by the clock's own comparison |
| ForwardingDb.Fdb.Selected | kernel/ubr-fdb.c:49-62 | The sequence of tests selects a node exactly when the conjunction of the switched-on criteria holds |
| ForwardingDb.Fdb.Flush | kernel/ubr-fdb.c:33-73 | Whatever the walk yields, exactly the matching entries among those it came past before breaking off are removed, and it fails exactly if it broke off |
| ForwardingDb.VisitedExactly | kernel/ubr-fdb.c:41-47 | A walk comes past exactly the nodes it yields before it breaks off |
| ForwardingDb.CompleteFlush | kernel/ubr-fdb.c:41-47 | A walk that ends normally, however often it was restarted, removes exactly what matches |
| ForwardingDb.Fdb.Age | kernel/ubr-fdb.c:75-87 | The worker removes exactly the expired dynamic entries and comes back after half the timeout |
| ForwardingDb.Fdb.Learn | kernel/ubr-fdb.c:89-134 | The table after learning, in every branch: invalid source, static entry, refresh, move, new entry, no memory |
| ForwardingDb.Fdb.Filter | kernel/ubr-fdb.c:146-183 | The vector used is that of the live entry for the destination's key, or the flood vector for its kind of address |
| ForwardingDb.Fdb.Forward | kernel/ubr-fdb.c:136-187 | Learns first if port and VLAN want it, then narrows only the frame's port vector |
| ForwardingDb.Fdb.Dellink | kernel/ubr-fdb.c:207-215 | Teardown leaves an empty table |
| ConcurrentFdb.ConcurrentLearningIsSafe | kernel/ubr-fdb.c:33-134 | For every interleaving of learners and flusher: one node per key, no access after free, every node in exactly one place and handed over for freeing once, every port learnt by a call for that key |
| ConcurrentFdb.StepKeepsInv | kernel/ubr-fdb.c:102-133 | Every single access by a learner or the flusher keeps the invariant behind those guarantees |
| ConcurrentFdb.StaticNodesStay | kernel/ubr-fdb.c:104-105 | Over every run no learner changes a node that is not dynamic |
| StationMoves.TwoPortsExactly | kernel/ubr-fdb.c:107-111 | Over every interleaving from the empty database a node comes to hold two ports exactly if two learners set different ports in it with no emptying in between |
| StationMoves.TwoPortsAt | kernel/ubr-fdb.c:107-111 | At every instant a node holds two ports exactly if such a collision happened and the node has not been emptied since |
| StationMoves.VectorIsHistory | kernel/ubr-fdb.c:107-126 | At every instant a port is in a node's vector exactly if it was written there and the vector has not been emptied since |
| StationMoves.NoPortExactly | kernel/ubr-fdb.c:109-110 | A node holds no port, so that frames to the station go nowhere, exactly between an emptying and the next setting |
| StationMoves.ExclusiveMovesKeepOnePort | kernel/ubr-fdb.c:107-111 | Where no two learners are in the middle of moving a node to different ports it never holds two |
| StationMoves.TwoPortsReached | kernel/ubr-fdb.c:102-111 | From the empty database there is a run, for any station and any three ports, that leaves its node on two ports |
| StationMoves.LostExactly | kernel/ubr-fdb.c:49-67 | Whatever learners write to a node, it is lost without being tested again exactly if the flusher had picked it before and goes on to remove it |
| StationMoves.RefreshedIsLost | kernel/ubr-fdb.c:59-65 | From the empty database there is a run in which the ageing worker removes an entry that was refreshed just now |
| LoneLearner.LoneHitLearns | kernel/ubr-fdb.c:102-115 | A learner nobody overlaps, finding its station, does what the sequential function does |
| LoneLearner.LoneMissLearns | kernel/ubr-fdb.c:117-133 | A learner nobody overlaps, finding nothing, does what the sequential function does |
| LoneFlusher.LoneFlushFlushes | kernel/ubr-fdb.c:33-73 | A flusher nobody disturbs, once nothing is left that matches, has made of the table what the sequential flush makes of it, in whatever order it went |
| TagOrdering.TaggedBeforeMember | kernel/ubr-vlan.c:79-100 | At every instant of every run of attach and detach writes, a port only ever attached as tagged is tagged whenever it is a member |
| TagOrdering.ForwarderSeesTag | kernel/ubr-forward.c:12-17 | A forwarder that saw the member bit later sees the tagged bit unless a detach cleared it in between |
| TagOrdering.OrderMatters | kernel/ubr-vlan.c:81-86 | With the two writes of an attach exchanged the guarantee fails |
| TagOrdering.CommandEffect | kernel/ubr-vlan.c:79-100 | The writes of a whole command add up to the configuration command |
| Delivery.BuffersConserved | kernel/ubr-forward.c:49-78 | Buffers handed on plus buffers freed are one more than the clones made; no port gets two, none outside the vector gets one |
| Delivery.DeliveredToAll | kernel/ubr-forward.c:55-75 | Without a lost clone exactly the ports of the vector are served, the lowest with the original, using one clone less than ports |
| Delivery.DeliveredUpToLoss | kernel/ubr-forward.c:60-77 | If cloning fails at port k, exactly the ports strictly between the lowest and k were served and the original is freed once |
| Forwarding.Deliver | kernel/ubr-forward.c:49-78 | The delivery loop hands the buffer on as specified, with the right tag decision for every port |
| Forwarding.CommonEgress | kernel/ubr-forward.c:7-25 | Only frames from filtering ports have their tag touched: pushed for tagged ports, stripped for others |
| Pipeline.ClassificationIsSound | kernel/ubr-vlan.c:14-77 | A frame belongs to the VLAN of its own nonzero C-tag VID on a filtering port, else of the PVID, and is accepted exactly if that exists and, on a filtering port, has the port as a member |
| Pipeline.ClassifiedByOutermostTag | kernel/ubr-vlan.c:29-72 | The same by the frame's own fields: a C-tag with a VID decides, held beside the frame or outermost in its bytes; without tag, with a priority tag or with a foreign tag outermost the PVID does |
| Pipeline.TagsAreNormalised | kernel/ubr-vlan.c:29-69 | On a filtering port an outermost C-tag leaves the frame's bytes and every other tag stays in them; a frame that belongs to a VLAN then holds one C-tag, its own or the lower 12 bits of its VLAN's VID; nothing else of the frame changes |
| Pipeline.AcceptedMayReachMembers | kernel/ubr-vlan.c:74-76 | The vector of an accepted frame is that of its VLAN's members without its own port |
| Pipeline.SwitchesAreObeyed | kernel/ubr-forward.c:98-103 | Nothing is learnt unless port and VLAN both learn; control traffic is trapped, not learnt and not sent |
| Pipeline.GroupEntriesAreUsed | kernel/ubr-fdb.c:146-170 | A live group entry filters the group's frames: by network address those that show it once their C-tag is out of their bytes, by link-layer address all others |
| Pipeline.AcceptedFramesAreTagged | kernel/ubr-vlan.c:57-69 | A frame accepted on a filtering port carries a C-tag with the lower 12 bits of its VLAN's VID, so with that VID exactly when it is below 4096 |
| Pipeline.Isolation | kernel/ubr-forward.c:85-116 | For any table contents: only members of the frame's VLAN, never the ingress port, nothing from a filtering port that is no member, buffers conserved |
| Pipeline.EgressTagging | kernel/ubr-forward.c:7-17 | A frame from a filtering port is pushed a tag exactly for the tagged ports of its VLAN, with the lower 12 bits of the VLAN's VID, and its tag is stripped for all others; frames from other ports are left alone |
| Forwarding.ParseTag | kernel/ubr-vlan.c:29-55 | An outermost C-tag ends up beside the frame and no longer in its bytes, a foreign tag in its bytes; the VID read is the C-tag's, or 0; nothing else changes |
| Forwarding.VlanIngress | kernel/ubr-vlan.c:14-77 | The buffer's frame, VLAN pointer and vector after classification are those of the specification |
| Forwarding.Switch | kernel/ubr-forward.c:98-113 | After classification the database learns and filters even a rejected frame; the frame is trapped, delivered or freed |
| Forwarding.Forward | kernel/ubr-forward.c:85-116 | The whole pipeline on a buffer: the outcome and the table are those of the specification and the configuration is untouched |
| Forwarding.RxHandler | kernel/ubr-port.c:17-28 | A frame from an enslaved device is forwarded from that device's slot and always consumed |
| Forwarding.StartXmit | kernel/ubr-dev.c:23-41 | A frame from the host is forwarded from slot 0 |
| Forwarding.HandlerData | kernel/ubr-private.h:175-200 | The receive hook of an enslaved device leads to the slot that stores the device |
| Config.PortFind | kernel/ubr-port.c:186-199 | The lowest busy slot with the device, or none if there is none |
| Config.NewCfgInv | kernel/ubr-dev.c:102-139 | A new bridge satisfies every invariant |
| NewBridges.NewBridgeExactly | kernel/ubr-dev.c:102-139 | The host is a new bridge's only port, and the only, untagged, member of its only VLAN, which learns and floods to every port |
| NewBridges.EveryStationIsLearnt | kernel/ubr-vlan.c:143-150 | At any time since a bridge was created, every frame that belongs to a VLAN, accepted or not, teaches it the frame's source if that is a station's address and known or there is memory |
| NewBridges.UnknownIsFlooded | kernel/ubr-vlan.c:147-150 | At any time since a bridge was created, an accepted frame for a group, or for a station unknown or expired, goes to exactly its VLAN's members but where it came in, each once |
| NewBridges.FirstIsAdded | kernel/ubr-port.c:113-156 | The first device added to a new bridge gets slot 1 and shares VLAN 0 with the host |
| NewBridges.FirstBroadcast | kernel/ubr-forward.c:85-116 | A broadcast from that device goes to the host alone, as it is, and makes its station known |
| ConfigProofs.ExecuteKeepsInv | kernel/ubr-private.h:161-166 | Every command, successful or failing, keeps the PVID caches coherent, slots self-describing, devices unique and device links consistent |
| Commands.AddPortAnswers | kernel/ubr-port.c:80-168 | The answer to an addition, for every combination of reasons to refuse: not Ethernet before busy before unbridgeable before full before the kernel's own refusals |
| Commands.AddPortExactly | kernel/ubr-port.c:47-156 | A successful addition makes the lowest free slot the device's, learning, without PVID and not filtering, and a member of VLAN 0; no other slot, VLAN or bit changes |
| Commands.RefusedAddExactly | kernel/ubr-port.c:113-168 | A refused addition changes nothing or, after a slot was taken, just that slot's VLAN 0 member bit |
| Commands.DelPortExactly | kernel/ubr-port.c:171-184 | A deletion blanks and frees the device's slot; no other slot, VLAN or bit changes |
| Commands.SetPortExactly | kernel/ubr-port.c:251-267 | Setting a PVID fails and changes nothing for a device that is no port, and otherwise changes just that slot's PVID, cached VLAN and filtering |
| Commands.AddVlanExactly | kernel/ubr-vlan.c:130-161 | Adding a VLAN fails exactly if it exists or there is no memory; the new one learns, floods to every port and has no members, and just the caches of its ports change |
| Commands.DelVlanExactly | kernel/ubr-vlan.c:353-359 | Deleting a VLAN, as intended, fails exactly if there is none, and changes just the table and the caches of its ports |
| Commands.DelVlanAsWrittenExactly | kernel/ubr-vlan.c:122-128 | As written, all a deleted VLAN loses is its members |
| Commands.AttachPortExactly | kernel/ubr-vlan.c:400-410 | Attaching fails and changes nothing for a device that is no port, and otherwise sets just that port's bits in that VLAN, never clearing the tagged one |
| Commands.DetachPortExactly | kernel/ubr-vlan.c:430-438 | Detaching changes nothing for a device that is no port, and otherwise clears just that port's two bits in that VLAN |
| ConfigProofs.PortFindInverts | kernel/ubr-port.c:186-199 | Finding a port yields slot i exactly when slot i is busy with the device |
| ConfigProofs.AddedPortIsFound | kernel/ubr-port.c:113-156 | A successful addition takes the lowest free slot and the device is found there, not before |
| ConfigProofs.DeletedPortIsGone | kernel/ubr-port.c:171-199 | After deletion the device is not found and its slot is blank and free |
| ConfigProofs.FailedAddLeavesNothing | kernel/ubr-port.c:113-169 | Whichever step fails, devices, busy bits and slots are as before; only the VLAN 0 member bit of a slot once taken stays |
| ConfigProofs.DelUndoesAdd | kernel/ubr-port.c:113-184 | Deleting a port just added restores all but that bit |
| ConfigProofs.ExecuteKeepsDevices | kernel/ubr-port.c:138-182 | Every command leaves each device, but for what being enslaved adds to it, exactly as others' use makes it |
| ConfigProofs.TearOne | kernel/ubr-dev.c:147-152 | Deleting the next busy slot's device takes teardown exactly one slot further |
| ConfigProofs.TornDown | kernel/ubr-dev.c:141-158 | After teardown only the host slot is busy and as it was, each enslaved device was released exactly once, and no VLAN changed |
| ConfigProofs.DeletionAsWritten | kernel/ubr-vlan.c:122-128 | Deleting a present VLAN as written always differs from the intended deletion: it is still found, its VID cannot be added again, and it can be deleted again |
| ConfigProofs.CachesAfterDeletionAsWritten | kernel/ubr-vlan.c:122-128 | Until the VLAN is freed, the PVID caches are coherent after a deletion as written exactly if no port has that PVID |
| ConfigProofs.IncoherenceIsReached | kernel/ubr-vlan.c:283-360 | A new bridge, one VLAN and one PVID suffice for incoherent caches |
| ConfigProofs.OpenPortsAfterDeletionAsWritten | kernel/ubr-vlan.c:332-360 | Every port that does not filter has a VLAN, and a deletion as written breaks that exactly if it is of VLAN 0 and some port has no PVID |
| ConfigProofs.OpenHostIsReached | kernel/ubr-vlan.c:332-360 | Deleting VLAN 0 of a new bridge leaves the host's port without a VLAN |
| ConfigProofs.DeletionLeavesMembers | kernel/ubr-port.c:37-45 | After a port deletion all members are ports exactly if the port had been detached from every VLAN |
| ConfigProofs.RefusedAddLeavesMember | kernel/ubr-port.c:158-168 | An addition keeps all members ports exactly unless the kernel refuses after the slot was taken |
| ConfigProofs.StaleMembersAreReached | kernel/ubr-port.c:158-184 | On a new bridge one refused addition, or one addition and deletion, of any free device leaves a member that is no port |
| Effects.PvidSet | kernel/ubr-port.c:257-263 | With a PVID other than 0 frames without VID belong to its VLAN if that exists and others to their own; with PVID 0 all frames belong to VLAN 0 and are accepted; filtering is on exactly for a nonzero PVID; other ports do not notice |
| Effects.VlanAdded | kernel/ubr-vlan.c:301-330 | Exactly the frames requesting the new VID now resolve to it, and are still rejected for want of members |
| Effects.VlanDeleted | kernel/ubr-vlan.c:332-360 | With deletion as intended, exactly the frames requesting the VID no longer resolve |
| Effects.VlanDeletedAsWritten | kernel/ubr-vlan.c:57-72 | With deletion as written, frames that carry the VID themselves still resolve to the deleted VLAN, though none is accepted; all others fare as intended |
| Effects.Attachment | kernel/ubr-vlan.c:385-410 | The port may send into the VLAN and be sent to, tagged if it ever was attached so; all other bits stay |
| Effects.Detachment | kernel/ubr-vlan.c:416-438 | The port is sent no frame of the VLAN, and if it filters none of its own is accepted |
| Effects.OnlyPortsAreReached | kernel/ubr-forward.c:40-47 | While all members are ports, frames reach only ports |
| Effects.OtherCommandsKeepMembers | kernel/ubr-vlan.c:79-100 | Commands other than adding or deleting ports keep all members ports |
| Effects.LearntStation | kernel/ubr-forward.c:93-98 | Within the timeout, frames to a station heard on a port go to exactly that port if it is a member other than the ingress port, and otherwise nowhere, so a station heard in a rejected frame becomes unreachable; only a new station heard without memory has its frames flooded |
| Tenancies.MembershipsAreEarned | kernel/ubr-port.c:37-45 | Over every run, each membership of a port outside VLAN 0 goes back to an attach of the device now in that slot, at every instant, exactly if no device is ever given a slot that still has memberships |
| Tenancies.NewBridgeMemberships | kernel/ubr-dev.c:102-139 | This holds of every run of a new bridge, which starts without memberships |
| Tenancies.SlotIsInherited | kernel/ubr-port.c:124-130 | The device added after one was deleted while attached inherits its memberships if that slot is the lowest free one |
| Tenancies.InheritanceIsReached | kernel/ubr-port.c:113-184 | On any new bridge, adding a VLAN, attaching any free device to it, deleting that and adding another free device hands the memberships on |
| Vlans.Vlan.constructor | kernel/ubr-vlan.c:139-150 | A new VLAN learns, floods all three kinds of traffic to every port and has neither members nor tagged ports |
| Vlans.Vlan.PortAdd | kernel/ubr-vlan.c:79-89 | Sets the member bit and, if asked, the tagged bit; never clears one |
| Vlans.Vlan.PortDel | kernel/ubr-vlan.c:91-100 | Clears both bits of the port only |
| Vlans.VlanTable.OneBucketIsEnough | kernel/ubr-vlan.c:102-112 | For any hash function, searching one bucket equals searching the table, and a VID occurs in at most one place |
| Vlans.VlanTable.Find | kernel/ubr-vlan.c:102-112 | The loop over one chain is lookup in a finite map, and reads exactly the chain up to what it finds |
| Vlans.VlanTable.New | kernel/ubr-vlan.c:130-161 | Fails with EBUSY exactly if the VID is present, with ENOMEM exactly if memory then is not; otherwise extends the map |
| Vlans.VlanTable.StaleVlanIsRead | kernel/ubr-vlan.c:102-128 | A VLAN left in its chain, as the deletion leaves the one it frees, is read by exactly the searches that go to its bucket and find nothing there or nothing before it |
| Bridges.Bridge.constructor | kernel/ubr-dev.c:102-139 | A new bridge is valid, has the host port and VLAN 0 and an empty database |
| Bridges.Bridge.PortInit | kernel/ubr-port.c:47-78 | The slot, VLAN 0 and busy bit after initialisation; nothing else changes |
| ConfigProofs.AddedOnlyOnce | kernel/ubr-port.c:80-156 | Exactly a free Ethernet device is taken, while there is a slot and the kernel plays along; a device of any bridge is refused and nothing changes |
| Runs.RefusedUntilDeleted | kernel/ubr-port.c:100-103 | Over every run that does not delete it, an added device is refused with EBUSY and nothing changes; once deleted it may be added again |
| Bridges.Bridge.AcquireDevice | kernel/ubr-port.c:138-163 | Either all four kernel resources are held or the device is as before |
| Bridges.Bridge.PortAdd | kernel/ubr-port.c:113-169 | Staged acquisition with unwinding amounts to the all-or-nothing command |
| Bridges.Bridge.PortDel | kernel/ubr-port.c:171-184 | The device is released, its slot given back, and the database untouched |
| Bridges.Bridge.PortFindSlot | kernel/ubr-port.c:186-199 | The loop over busy slots finds the lowest with the device |
| Bridges.Bridge.PortSet | kernel/ubr-port.c:223-268 | Sets PVID, cached VLAN and filtering of that one port, or fails with EINVAL |
| Bridges.Bridge.UpdatePortVlan | kernel/ubr-vlan.c:283-299 | Exactly the busy ports with that PVID have their cache redirected |
| Bridges.Bridge.VlanAdd | kernel/ubr-vlan.c:301-330 | The table and the caches after adding a VLAN, or the error |
| Bridges.Bridge.VlanDel | kernel/ubr-vlan.c:332-360 | The table and the caches after deleting a VLAN as intended, or ENOENT |
| Bridges.Bridge.VlanDelAsWritten | kernel/ubr-vlan.c:332-360 | The table and the caches after deleting any VLAN as the source does, or ENOENT |
| Bridges.Bridge.Attach | kernel/ubr-vlan.c:385-414 | The VLAN's bits after attaching, or ENODEV |
| Bridges.Bridge.Detach | kernel/ubr-vlan.c:416-442 | The VLAN's bits after detaching; an unknown port changes nothing |
| Bridges.Bridge.DelAllPorts | kernel/ubr-dev.c:147-152 | The loop ends and tears down every port although each deletion clears a bit of the vector it walks |
| Bridges.Bridge.Dellink | kernel/ubr-dev.c:141-158 | Teardown leaves the host slot alone busy, every device released and the database empty |

## Left out

- Bridges.Bridge.VlanDel: deletes a VLAN as intended, and the runs use it; the source never unhashes the VLAN (kernel/ubr-vlan.c:122-128), which always shows (ConfigProofs.DeletionAsWritten). VLAN 0 may not be deleted here, which only the command-line tool enforces (src/vlan.c:286); ConfigProofs.OpenPortsAfterDeletionAsWritten says what follows when it is.
- Bridges.Bridge.VlanDelAsWritten: the state before the deleted VLAN is freed; Vlans.VlanTable.StaleVlanIsRead says which searches read it afterwards, and what they then read is not part of this model.
- Effects.VlanDeleted: describes deletion as intended; Effects.VlanDeletedAsWritten says what frames notice of the other.
- Bridges.Bridge.PortDel: blanks the slot at once; in the source that happens after a grace period (kernel/ubr-port.c:43-44), and the model assumes it happens before the slot is used again.
- Bridges.Bridge.Attach: needs an existing VLAN when the port is found, because the source checks the wrong pointer (kernel/ubr-vlan.c:267-268) and would follow a null VLAN; the same holds for Bridges.Bridge.Detach.
- Forwarding.Forward: needs a frame that resolves to a VLAN, because the source consults the database, and with it the VLAN, also after classification rejected the frame (kernel/ubr-forward.c:93-98). Pipeline.ClassificationIsSound says exactly which frames resolve.
- Forwarding.ParseTag: the kernel's tag helpers are taken to succeed, and the comparison of the frame's protocol with the bridge's tag protocol is taken as intended, without byte order (kernel/ubr-vlan.c:29-46).
- Forwarding.CommonEgress: decides on pushing, stripping or keeping a tag; how the kernel edits the bytes, where an accepted frame already holds a tag when one is pushed, and its protocol check (kernel/ubr-forward.c:19-22), are not part of this model.
- Driver.Perform: flushes and ageing runs come past every entry, and a VLAN is deleted as intended; ForwardingDb.Fdb.Flush covers walks that break off. Walks and calls are made by the model's own driver, in the kernel's place.
- ForwardingDb.Fdb.constructor: takes the ageing timeout, which the source sets to 300 s. The hash table's own initialisation may fail in the source, and the first ageing run is queued there; the model leaves out the failure, and when the worker runs is part of the run.
- ForwardingDb.Fdb.Dellink: empties the table; cancelling the worker and destroying the hash table are not part of this model.
- Bridges.Bridge.constructor: creation succeeds; the failure paths (kernel/ubr-dev.c:117-138) undo steps nobody has seen yet.
- ForwardingDb.Fdb.Forward: reads the clock once per frame; the source reads it in learning and again in lookup.
- TagOrdering.ForwarderSeesTag: takes a forwarder's two reads as happening in program order.
- ConcurrentFdb: table insertion and removal are single atomic steps, and deferred freeing waits for the learners that were running at the hand-over.
- Module start and stop, notifiers, headroom and feature updates.
- Netlink parsing, device lookup and reference counts: commands arrive decoded. The flush and VLAN-set commands only print (kernel/ubr-fdb.c:231-240, kernel/ubr-vlan.c:362-383).
- The control, spanning-tree and source-filter stages, which always accept (kernel/ubr-forward.c:80-83).
- The command-line tool (src) and its first version (src/v1).
