# A verified model of mihomo's protocol, document and routing cores

mihomo is a rule-based network tunnel. This project models, in Dafny, the parts of it that carry
hard state, ordering or meaning-preservation obligations, and proves what those parts are for.

| files | component |
|---|---|
| `ZeroTierState`, `ZeroTierLocked`, `ZeroTierProtocol`, `ZeroTierSafety`, `ZeroTierTheorems`, `ZeroTierSchedules`, `ZeroTierRetry` | the ZeroTier outbound: node callbacks, configuration worker, packet loops, identity-collision recovery, retry and `Close`, interleaved under two locks |
| `OverrideDoc`, `OverrideUpdate`, `OverrideDelete`, `OverrideTarget`, `OverrideSelect`, `OverrideAssign`, `OverrideStream`, `OverrideGroups`, `OverrideOrder` | the override expression language: reading, assigning, deleting and streaming over JSON-like documents |
| `GroupGraph`, `GroupSort`, `DialerCheck` | the proxy-group sort with its loop report, and the dialer-proxy check |
| `RuleMatch` | rule matching with rematch passes |
| `LoadBalance`, `GroupFilter`, `GroupListing`, `GroupCache` | jump hash, round robin, and a group's version-keyed member cache |
| `DnsClients`, `DnsTtl` | sharing of DNS transports, and TTLs of cached messages |
| `PacketSender`, `SocksAddr` | the UDP packet sender with its NAT tables, and the destination codec |

`dafny verify dfyconfig.toml` checks the whole project.

## How the source is modelled

**Protocols.** The ZeroTier outbound, the group cache and the packet sender are state machines. A step is
one critical section, one call into an opaque component, or one lock operation; every interleaving the locks
allow is a sequence of steps, and the theorems quantify over all such sequences. The ZeroTier fields are also a
class whose methods are the critical sections, each proved to take one step of the state machine and to keep its invariant.

**In-place code.** The group sort overwrites its array, TTLs are written into arrays of records, round robin, the NAT
maps, the client cache and the group cache are objects with fields. Each such method is tied by its
`ensures` to a specification whose properties are proved separately, or states the promised property outright.

**Documents** are immutable trees, which is what the Go code computes as long as no sub-object is shared between two
places of a document. `=`, `+=`, `-=`, `*=`, filters and `del` clone or move values and keep that so; `|=` stores its
result uncloned (adapter/provider/override_expr.go:1291-1301), so a right side that mentions `.` twice can
break it, and such documents are outside the model. After an error the partly updated document is not modelled.

**Assumptions.** ZeroTier: the configuration generation does not reach 2^64; the node reports only configurations of
the joined network; applying a configuration to the IP link is all or nothing; a failed rollback is
recorded in the flag `desynced` and the agreement theorems speak of states without it. Rule matching: a group's
choice is a function of the metadata while rules are matched. Group cache: at least one provider, and fewer than 2^32 updates
of each. Jump hash: the floating-point step is any step with step(b) >= b + 1, which correct rounding
keeps and which the exact rational step is proved to meet. DNS clients: proxy adapters are comparable, so
`Equal` is equality. Sent packets: two packets given to `Send` are two packets, never one twice. Maps are walked in an arbitrary order
wherever Go walks them so.

**Where a property fails.** Several promises hold only under a condition, which is proved to be the exact one; a
name before a semicolon is a failing input or run. They are: reading back an assignment (`AssignThenRead`), writing back a read (`WriteBackIsIdentity`), the order of a
regrouped pipeline with unions (`GroupingOrdersUnions`; `GroupingKeepsOrderExactly`, `FlatOrderExactly`), publishing a
configuration captured before a device was invalidated (`PublishedAfterInvalidation`; `InvalidationBlocksExactly`), the link
after a failed rollback (`RollbackCanFail`; `RollbackRestoresExactly`), retrying a
held configuration (`LateConfigIsNotRetried`; `RetriesExactly`), TTLs of a cached server failure (`FailureCanWrap`;
`RewriteExactly`), the socks address round trip (`RoundTrip`, `LongestHost`), and a packet that is in `Send` while `Close`
goes on (`LingersExactly`, `LingeringWasPutLate`).

## Model

| member | source | states |
|---|---|---|
| `ZeroTierTheorems.RunKeepsInv` | adapter/outbound/zerotier.go:433-998 | In every state of every interleaving, device ownership and the agreement of fields, lock holder, readers, links and captures hold. |
| `ZeroTierTheorems.DevicesHaveOneOwner` | adapter/outbound/zerotier.go:851-990 | Every IP-stack device ever created is in exactly one of four places: private to the `operationMu` holder, published, owed one `Close`, closed once; nothing else is anywhere. |
| `ZeroTierTheorems.HandedNeverPublished` | adapter/outbound/zerotier.go:851-890 | A device handed to `Close` stays handed, is never published or private again, and is closed at most once. |
| `ZeroTierTheorems.NoDeviceLeaks` | adapter/outbound/zerotier.go:892-990 | With the lock free and no `Close` owed, a created device is closed exactly when it is not the published one. |
| `ZeroTierTheorems.PublishedDeviceMatchesLink` | adapter/outbound/zerotier.go:892-1014 | Whenever `operationMu` is free and a device is published, the runtime's link holds the published configuration at its effective MTU and the device was built for its addresses and MTU. |
| `ZeroTierTheorems.DeviceKeptExactly` | adapter/outbound/zerotier.go:918-935 | In every run, publishing keeps the device exactly when there is one and the new configuration has its addresses and effective MTU. |
| `ZeroTierTheorems.EffectiveMTUBounds` | adapter/outbound/zerotier.go:1000-1014 | The effective MTU obeys the option and the library's limits, and is the controller's own where both allow it. |
| `ZeroTierTheorems.ReaderLinkIsStable` | adapter/outbound/zerotier.go:1074-1088 | A packet loop past its check keeps a link configured for its device until it releases the read lock, even if the device is detached meanwhile. |
| `ZeroTierTheorems.ReaderTakesPublished` | adapter/outbound/zerotier.go:1074-1081 | A packet loop's check takes the published device and its runtime whenever there are both. |
| `ZeroTierTheorems.RollbackRestoresExactly` | adapter/outbound/zerotier.go:952-968 | In every run: after a stale attempt's rollback call with a device still published, link and configuration agree if and only if the call succeeded or both configurations mean the same link. |
| `ZeroTierSchedules.RollbackCanFail` | adapter/outbound/zerotier.go:952-968 | The failed rollback is reachable: a run ends with the lock free, a device published for one configuration and the link holding another. |
| `ZeroTierTheorems.SupersedingMovesOn` | adapter/outbound/zerotier.go:361-371 | The generation grows, by one, exactly with the steps that invalidate the network, swap the runtime, publish or shut down; no other step moves it, and invalidating one device does not. |
| `ZeroTierTheorems.GenerationMonotone` | adapter/outbound/zerotier.go:361-371 | Generations never decrease over a whole run of the protocol. |
| `ZeroTierTheorems.StaleConfigNeverPublished` | adapter/outbound/zerotier.go:892-998 | A configuration captured at one state and published later was not superseded in between by a network invalidation, runtime swap, publish or shutdown, and is still the newest one when published; device invalidations are the subject of the next four rows. |
| `ZeroTierSchedules.SnapshotFixesDevice` | adapter/outbound/zerotier.go:897-968 | In every run, every publish has its attempt's snapshot behind it with no effective `invalidateDevice` since: one that comes after the snapshot stops that attempt for good. |
| `ZeroTierSchedules.InvalidationBlocksExactly` | adapter/outbound/zerotier.go:879-968 | In any run that has come to an attempt with a current capture, an effective `invalidateDevice` leaves some continuation in which the attempt publishes if and only if it comes before the attempt's snapshot. |
| `ZeroTierSchedules.PublishedAfterInvalidation` | adapter/outbound/zerotier.go:879-890 | For any two configurations there is a run in which the second, captured before an effective `invalidateDevice`, is published after it, the generation unchanged. |
| `ZeroTierSchedules.DetachedNeverPublishes` | adapter/outbound/zerotier.go:936-968 | After an effective `invalidateDevice` past its snapshot, an attempt does not publish, however the run goes on. |
| `ZeroTierTheorems.DeviceImpliesRuntime` | adapter/outbound/zerotier.go:391-396 | In every reachable state a published device implies a runtime. |
| `ZeroTierTheorems.CloseIsFinal` | adapter/outbound/zerotier.go:1299-1327 | After the critical section of `Close` there is no runtime, no device and the closed error, for ever, and no field but the retry marker changes. |
| `ZeroTierTheorems.NoLostWakeup` | adapter/outbound/zerotier.go:568-598 | Between an unsettled and a later settled state the wake-up channel was closed, so `ensureStarted` cannot sleep through a result. |
| `ZeroTierRetry.RetriesExactly` | adapter/outbound/zerotier.go:775-806 | In every run, a retry copies out the newest configuration to apply it again if and only if the last effective step among the failures, publishes, runtime swaps and shutdown was a failure that asked for a retry while a configuration was held; a device failure always asks. |
| `ZeroTierRetry.FlagMeans` | adapter/outbound/zerotier.go:373-378 | The retry flag stands exactly between such a failure and the next deciding step, and only while a configuration is held. |
| `ZeroTierRetry.LateConfigIsNotRetried` | adapter/outbound/zerotier.go:373-378 | Holding a configuration when the retry begins is not enough: a run in which it came in after the failure and is not copied. |
| `ZeroTierTheorems.StepEvolves` | adapter/outbound/zerotier.go:354-396 | No step of any reachable state withdraws a `Close` obligation, lowers the generation, or settles silently. |
| `ZeroTierSafety.StartHolds` | adapter/outbound/zerotier.go:194-311 | A new outbound meets the invariant. |
| `ZeroTierSafety.StepKeepsInv` | adapter/outbound/zerotier.go:354-998 | Every enabled step, in any state that meets the invariant, keeps device ownership and coherence, withdraws no `Close` obligation, lowers no generation and settles nothing silently. |
| `ZeroTierLocked.ZeroTier.InvalidateNetwork` | adapter/outbound/zerotier.go:851-877 | Takes exactly the protocol's step and keeps the whole invariant; when it applies, error and login address are the given ones, the retry flag is the retry asked for a held configuration, and the `Close` now owed is that of the returned device. |
| `ZeroTierLocked.ZeroTier.InvalidateDevice` | adapter/outbound/zerotier.go:879-890 | Takes exactly the protocol's step and keeps the invariant; a detached device is owed one `Close`, the error is the given one, a held configuration is to be retried, and login address and generation are unchanged. |
| `ZeroTierLocked.ZeroTier.EnqueueNetworkConfig` | adapter/outbound/zerotier.go:554-561 | Takes exactly the protocol's step, keeps the invariant, and stores the configuration exactly when its runtime is current and the outbound open. |
| `ZeroTierLocked.ZeroTier.RecordConfigFailure` | adapter/outbound/zerotier.go:838-846 | Takes exactly the protocol's step and keeps the invariant; records error and retry exactly when generation, runtime and held configuration are those of the capture. |
| `ZeroTierLocked.ZeroTier.RetryNetworkBegin` | adapter/outbound/zerotier.go:775-796 | Takes exactly the protocol's step and keeps the invariant: at most one retry at a time, only of a network that is down or failed, its error cleared; the configuration is to be applied exactly when the flag asks for it, and is then among the captures. |
| `ZeroTierLocked.ZeroTier.RetryNetworkEnd` | adapter/outbound/zerotier.go:797-801 | Takes the protocol's step and keeps the invariant; another retry may begin. |
| `ZeroTierLocked.ZeroTier.CommitConfig` | adapter/outbound/zerotier.go:952-978 | Takes exactly the protocol's step and keeps the invariant: publishes if and only if device, runtime, configuration and generation are unchanged since the snapshot, else leaves every field alone. |
| `ZeroTierLocked.ZeroTier.PublishRuntimeLocked` | adapter/outbound/zerotier.go:513-516 | Takes exactly the protocol's step and keeps the invariant, with no device and no configuration carried over. |
| `ZeroTierLocked.ZeroTier.ShutdownLocked` | adapter/outbound/zerotier.go:1315-1318 | Takes exactly the protocol's step and keeps the invariant: runtime and device go to the caller, who owes the device one `Close`. |
| `OverrideDoc.LookupStream` | adapter/provider/override_expr.go:1709-1762 | The loops compute the recursive reading of a path, wildcards over sorted keys included. |
| `OverrideDoc.SortedKeysDistinct` | adapter/provider/override_expr.go:1212-1217 | A mapping's keys are enumerated in ascending order without repetition. |
| `OverrideDoc.LookupSingle` | adapter/provider/override_expr.go:1709-1762 | A path without wildcards reads exactly one value from every document. |
| `OverrideDoc.NegativeIndexReads` | adapter/provider/override_expr.go:1721-1732 | Reading index -k of an array of n items reads item n - k, and null past the front. |
| `OverrideDoc.WildcardReads` | adapter/provider/override_expr.go:1733-1759 | A wildcard reads an array's items in order and a mapping's values by ascending key, and nothing from anything else. |
| `OverrideUpdate.UpdatePath` | adapter/provider/override_expr.go:1470-1541 | The update loops, with mapping keys in any order, compute the recursive update, errors included. |
| `OverrideUpdate.AssignThenRead` | adapter/provider/override_expr.go:1470-1541 | For every document and path of fields and non-negative indices: reading after assigning v gives exactly [v] if and only if no node is in the way or v is null; a node in the way leaves the document alone. |
| `OverrideUpdate.AssignLeavesOthers` | adapter/provider/override_expr.go:1470-1541 | Every wildcard-free read that parts from the assigned path is unchanged, although mappings are created and arrays grow. |
| `OverrideUpdate.LastAssignWins` | adapter/provider/override_expr.go:1470-1541 | A second assignment to a path gives what it alone would give. |
| `OverrideUpdate.WriteBackIsIdentity` | adapter/provider/override_expr.go:1470-1541 | Assigning what a path reads changes nothing if and only if the path exists or is blocked. |
| `OverrideUpdate.NegativeIndexUpdates` | adapter/provider/override_expr.go:1494-1514 | Writing to index -k of an array of n items writes item n - k alone; past the front it fails. |
| `OverrideUpdate.WildcardUpdates` | adapter/provider/override_expr.go:1515-1539 | A wildcard updates every child where it stands; it fails exactly when a child's update fails, and leaves null and scalars alone. |
| `OverrideDelete.DeletePaths` | adapter/provider/override_expr.go:1382-1468 | Deleting in place, keys in any order, removes exactly the nodes whose concrete path, with indices resolved against the original arrays, matches a pattern. |
| `OverrideDelete.SplitPatterns` | adapter/provider/override_expr.go:1386-1404 | A key is removed exactly when a pattern ends at it; otherwise the patterns collected are those that go on below it. |
| `OverrideDelete.SplitItems` | adapter/provider/override_expr.go:1416-1449 | The same for every array item at once, negative indices counted from the original length. |
| `OverrideDelete.SurvivorsKept` | adapter/provider/override_expr.go:1382-1468 | A node none of whose ancestors is deleted is found at its shifted place with only its own deleted descendants missing. |
| `OverrideDelete.NothingElseAppears` | adapter/provider/override_expr.go:1382-1468 | Every node of the result is such a survivor, so values and order are kept. |
| `OverrideDelete.PatternOrderIrrelevant` | adapter/provider/override_expr.go:1367-1468 | The order and repetition of the patterns of one `del` do not matter. |
| `OverrideDelete.IndexMatches` | adapter/provider/override_expr.go:1425-1443 | In an array of n items a pattern of index -k matches item n - k and nothing else, index k item k, and a wildcard every item. |
| `OverrideDelete.FieldMatches` | adapter/provider/override_expr.go:1388-1400 | In a mapping a field matches the value of its key and a wildcard every value. |
| `OverrideDelete.OnlyKindred` | adapter/provider/override_expr.go:1382-1468 | A pattern matches only paths of its own length, fields in mappings and indices in arrays. |
| `OverrideTarget.ExpandTarget` | adapter/provider/override_expr.go:1160-1230 | Expanding a path from a selection gives the concrete selections in stream order. |
| `OverrideTarget.NegativeIndexSelects` | adapter/provider/override_expr.go:1179-1200 | Selecting index -k of an array of n items selects item n - k; past the front nothing. |
| `OverrideTarget.ResolveTarget` | adapter/provider/override_expr.go:1127-1158 | Resolving a target is its stages composed, a condition's error being the target's error. |
| `OverrideTarget.ResolvedPathsDistinct` | adapter/provider/override_expr.go:1127-1230 | All paths resolved from one target have one length, hold the value they were selected with, and none equals or is a prefix of another. |
| `OverrideSelect.TargetSelectsExactly` | adapter/provider/override_expr.go:1127-1230 | A target fails exactly when a condition fails on a node that the stages before it select; otherwise it selects exactly the paths that take one concrete piece per path stage and at every condition stand on a node for which it gives something other than null and false, each with its node, in document order. |
| `OverrideSelect.ExpandSelects` | adapter/provider/override_expr.go:1160-1230 | Following a path selects exactly the nodes whose concrete path fits its segments at each node on the way. |
| `OverrideSelect.FilterSelects` | adapter/provider/override_expr.go:1143-1155 | A condition keeps exactly the selections on which some result is truthy, and fails exactly when it fails on one. |
| `OverrideAssign.AssignTarget` | adapter/provider/override_expr.go:1318-1337 | The whole target branch: one update after another, and an error exactly when resolving or an update fails or the root stops being a mapping; a result is a mapping. |
| `OverrideAssign.UpdateAt` | adapter/provider/override_expr.go:1470-1541 | A write along a reachable path succeeds if and only if its indices are non-negative and the updater accepts; it then stores the updater's value. |
| `OverrideAssign.UpdatesCommute` | adapter/provider/override_expr.go:1324-1336 | Two updates on paths apart from each other commute, failures included. |
| `OverrideAssign.SequentialIsSimultaneous` | adapter/provider/override_expr.go:1318-1337 | The sequence succeeds exactly when every selection is writable and accepted; then each path holds the update of its original value and every diverging read is unchanged. |
| `OverrideAssign.AnyOrder` | adapter/provider/override_expr.go:1318-1337 | Any order of the selections gives the same document or the same failure. |
| `OverrideAssign.TargetIsSimultaneous` | adapter/provider/override_expr.go:1318-1337 | For every root and target, the assignment is one simultaneous update of the original values, in any order. |
| `OverrideStream.EvalStreamInputs` | adapter/provider/override_expr.go:1584-1597 | The batch loop computes the batch meaning. |
| `OverrideStream.EvalStream` | adapter/provider/override_expr.go:1555-1567 | Evaluation of one input, through pipelines and unions. |
| `OverrideStream.EvalUnion` | adapter/provider/override_expr.go:1638-1648 | A union gives branch after branch, each over all inputs. |
| `OverrideStream.BatchIsSum` | adapter/provider/override_expr.go:1584-1597 | A batch fails exactly when some input alone fails, and otherwise gives, as a multiset, the sum of the inputs' results; in sequence unless the expression is a union. |
| `OverrideStream.RunPermuted` | adapter/provider/override_expr.go:1614-1624 | Permuting the inputs of a pipeline permutes its results and does not change whether it fails. |
| `OverrideGroups.RegroupingIrrelevant` | adapter/provider/override_expr.go:1606-1648 | Any two groupings of the same stages fail together and give the same multiset; the same sequence when in both of them every group that holds a union comes first in its pipeline. |
| `OverrideGroups.LeadingGroupOpens` | adapter/provider/override_expr.go:1614-1624 | A group at the head of a pipeline may be opened without changing the sequence, unions included. |
| `OverrideOrder.GroupingKeepsOrderExactly` | adapter/provider/override_expr.go:1584-1648 | For every pipeline the parser builds: opening one group keeps the sequence, for all leaf functions and inputs, if and only if the group comes first or none of its own stages is a union. |
| `OverrideOrder.FlatOrderExactly` | adapter/provider/override_expr.go:1584-1648 | For every pipeline the parser builds: the grouping gives the sequence of its flat form, for all leaf functions and inputs, if and only if every group that holds a union comes first in its pipeline. |
| `OverrideOrder.OpeningChangesOrder` | adapter/provider/override_expr.go:1584-1648 | The failing half on concrete leaves: with `.[] // .` for every leaf and the input [0, 1], a later group with a union stage does change the sequence. |
| `OverrideGroups.UnionSplitsExactly` | adapter/provider/override_expr.go:1638-1648 | For given branches and inputs: a two-branch union over two batches at once gives what it gives batch by batch if and only if the second batch's results of the first branch commute with the first batch's results of the second. |
| `OverrideGroups.GroupingOrdersUnions` | adapter/provider/override_expr.go:1606-1648 | On any two-item array, piping `.[]` into `(0, 1)` and then `.` gives 0, 0, 1, 1; piping `.[]` into the group of the two gives 0, 1, 0, 1. |
| `GroupSort.DagSort` | config/utils.go:18-145 | For every map order: duplicate names are rejected untouched; groups are sorted if and only if names differ and no group contains itself through others, and then the array is a permutation with every group after its member groups; otherwise the report is non-empty and lists, once each, exactly the nodes that some cycle leads to and that lead to some cycle. |
| `GroupSort.BuildGraph` | config/utils.go:34-59 | Duplicate names are detected exactly, and the graph counts every edge with its multiplicity. |
| `GroupSort.PeelParents` | config/utils.go:60-96 | Peeling writes placed groups from the back of the array; what is left has no node without a parent and every node that a cycle leads to. |
| `GroupSort.RebuildEdges` | config/utils.go:99-117 | Out-degrees and parents of what is left are recounted from the remaining groups. |
| `GroupSort.PeelLeaves` | config/utils.go:118-137 | Peeling leaves keeps every node between cycles and ends with every node having a child. |
| `GroupSort.ReportLoop` | config/utils.go:138-144 | The report is exactly the nodes between cycles. |
| `GroupSort.LoopsAreReported` | config/utils.go:138-144 | Every node on a cycle is in the report. |
| `GroupGraph.ParentClosedHasCycle` | config/utils.go:93-96 | A non-empty set in which every node has a parent contains a cycle, so an incomplete peel is a real loop. |
| `GroupGraph.ClosedIsBetween` | config/utils.go:118-144 | In a finite set where every node has a parent and a child, every node is led to by a cycle and leads to one. |
| `DialerCheck.ValidateDialerProxies` | config/utils.go:148-176 | Accepts exactly the maps with no dangling reference and no circular dialer chain; a rejection names a missing dialer, or a proxy whose own dialer chain never ends. |
| `DialerCheck.HasCycle` | config/utils.go:179-203 | The search says yes only if a loop exists and the chain from its start never ends, and no only if that chain ends. |
| `DialerCheck.LoopNeverEnds` | config/utils.go:179-203 | From a node on a loop no number of hops ends the chain, so the two answers exclude each other. |
| `RuleMatch.Match` | tunnel/tunnel.go:654-711 | Terminates within one pass per rematch name and one more; its first pass runs over the sub-rules that the metadata names, or over the main rules if there are none, and a hit or no rule there is its exit. |
| `RuleMatch.FollowChain` | tunnel/tunnel.go:671-683 | The unwrap walk terminates and finds the first Pass or Rematch on the chain. |
| `RuleMatch.ScanOnce` | tunnel/tunnel.go:663-691 | One pass over the rules, with the metadata each rule leaves behind. |
| `RuleMatch.FirstRuleWins` | tunnel/tunnel.go:663-691 | The rule that hits matched, its adapter exists, its walk is clean, and all earlier rules were passed over. |
| `RuleMatch.FirstTakenDecides` | tunnel/tunnel.go:663-691 | A pass is decided by the first rule that is not passed over, on its own and with the metadata the earlier rules left; a pass ends without a rule exactly when all are passed over. |
| `RuleMatch.MatchExplained` | tunnel/tunnel.go:654-721 | Every match is a chain of passes through pairwise different rematch names, each over the sub-rules its metadata names or else the main rules and each continuing with the metadata the rematch left; its exit is that of the last pass. |
| `RuleMatch.MainTableUnused` | tunnel/tunnel.go:713-721 | If every pass runs over a sub-rule table, the main table might as well be any other. |
| `RuleMatch.RematchMeans` | tunnel/tunnel.go:663-691 | A pass that ends in a rematch was led there by the first rule not passed over, with the metadata that rule left, and hands over a Rematch adapter on that rule's unwrap walk. |
| `RuleMatch.ResultIsUsable` | tunnel/tunnel.go:654-711 | Outside the rematch exits a returned adapter never unwraps through Pass or Rematch and carries UDP for a UDP flow; a rematch exit returns a Rematch adapter. |
| `RuleMatch.CleanExactly` | tunnel/tunnel.go:671-683 | A walk that is not clean really reaches a Pass or Rematch adapter. |
| `RuleMatch.SortedGroupsDescend` | config/config.go:922-985 | Parsing groups in the order the sort leaves them, with or without the automatic GLOBAL selector after them, is what makes every unwrap walk descend. |
| `LoadBalance.ComputeJumpHash` | adapter/outboundgroup/loadbalance.go:71-82 | The loop terminates for every forward step and computes the recursive hash. |
| `LoadBalance.HashIsConsistent` | adapter/outboundgroup/loadbalance.go:71-82 | The hash is below n, and with buckets added a key keeps its bucket or moves to an added one; from n to n + 1 it stays or becomes n. |
| `LoadBalance.HashIsLastJump` | adapter/outboundgroup/loadbalance.go:71-82 | The hash is the last bucket below n that the jumps from bucket 0 reach, each with the next key. |
| `LoadBalance.KeyArithmetic` | adapter/outboundgroup/loadbalance.go:76-77 | Keys advance by the 64-bit generator with multiplier 2862933555777941757, modulo 2^64. |
| `LoadBalance.ExactStepForward` | adapter/outboundgroup/loadbalance.go:77-78 | The exact step 2^31 / ((key >> 33) + 1) goes forward, and from an int32 bucket stays below 2^63. |
| `LoadBalance.ExactStepMeans` | adapter/outboundgroup/loadbalance.go:77-78 | The exact step is the floor of (b + 1) * 2^31 / ((key >> 33) + 1). |
| `LoadBalance.ConsistentHashing` | adapter/outboundgroup/loadbalance.go:158-180 | Picks the first live proxy among the five hashed tries, else the first live proxy of the list, else the first. |
| `LoadBalance.RoundRobin.Next` | adapter/outboundgroup/loadbalance.go:129-156 | Returns the next live proxy; a call that does not touch returns the same one and leaves the position. |
| `LoadBalance.PickMeans` | adapter/outboundgroup/loadbalance.go:129-156 | A pick is the first live proxy from the position on, going round once, and leaves the place after it; with none alive it is the first proxy and the position stays. |
| `LoadBalance.RoundRobinIsFair` | adapter/outboundgroup/loadbalance.go:129-156 | With k live proxies any k consecutive touching calls return each of them exactly once. |
| `GroupFilter.Build` | adapter/outboundgroup/groupbase.go:140-224 | The loops compute filter, reorder and exclude as one function of what the providers returned. |
| `GroupFilter.ReorderList` | adapter/outboundgroup/groupbase.go:172-194 | The two reorder loops list the first proxy of every name among filter matches followed by the rest. |
| `GroupFilter.ReorderSortsByFilter` | adapter/outboundgroup/groupbase.go:169-194 | Reordering keeps exactly the names, one proxy each, sorted by the first matching filter with unmatched ones last. |
| `GroupFilter.FilterKeepsMatching` | adapter/outboundgroup/groupbase.go:152-165 | The filters keep of one provider exactly the names some filter matches, one proxy each, sorted by the first matching filter. |
| `GroupFilter.BuiltListIsClean` | adapter/outboundgroup/groupbase.go:140-224 | A built list holds exactly the gathered proxies that no exclusion hits; with several filters and providers, one of every name and in filter order. |
| `GroupListing.BuiltExactly` | adapter/outboundgroup/groupbase.go:140-224 | From settings and provider contents alone: the list traces entry by entry to the places that are read, pass their filter first of their name, are not excluded and, when reordered, come first of their name; in reading order of providers, or by first matching filter when reordered. |
| `GroupCache.StepKeepsInv` | adapter/outboundgroup/groupbase.go:122-235 | Every step of any call and every provider update keeps the cache and all calls valid. |
| `GroupCache.RunKeepsInv` | adapter/outboundgroup/groupbase.go:122-235 | So the invariant holds throughout every interleaving. |
| `GroupCache.ReturnedListIsFresh` | adapter/outboundgroup/groupbase.go:122-235 | Every returned list, cached or not, is non-empty and computed from contents no older than the versions its call read first. |
| `GroupCache.QuietCallIsUncached` | adapter/outboundgroup/groupbase.go:122-235 | If the versions read are still current, the list is the uncached one. |
| `GroupCache.UncachedExactly` | adapter/outboundgroup/groupbase.go:140-234 | The uncached list, said of the providers' present contents: the shown places in their order, and the fallback alone when there are none. |
| `GroupCache.UpdateKeeps` | adapter/provider/provider.go:103-112 | A provider update in the middle of any calls invalidates none of them. |
| `GroupCache.GroupBase.LockedSection` | adapter/outboundgroup/groupbase.go:131-234 | With any versions read before it and any reads no older: a version match returns the cached list unchanged, else a non-empty list is cached under the versions; the fields follow the protocol's lock or finish step and the list is made from reads no older than those versions. |
| `GroupCache.GroupBase.GetProxies` | adapter/outboundgroup/groupbase.go:122-235 | The method on its fields returns the uncached, non-empty list, whatever versions the cache was filled at, and leaves a valid cache. |
| `GroupCache.ValidSurvivesUpdates` | adapter/provider/provider.go:103-112 | A valid object stays valid under any updates of its providers. |
| `GroupCache.AskAfterUpdates` | adapter/outboundgroup/groupbase.go:122-235 | One object asked after each of any series of provider updates answers every time with the uncached list of that moment. |
| `DnsClients.TransformCalls` | dns/resolver.go:533-566 | For every sequence of calls: each client is the one its name server would build from scratch, up to which transport, and two share a transport exactly when `transportEqual` holds. |
| `DnsClients.ClientCache.CacheTransform` | dns/resolver.go:537-566 | One client per name server, in order, all recorded; earlier entries are never changed. |
| `DnsClients.ClientCache.ClientFor` | dns/resolver.go:539-564 | A transport is built exactly when no recorded name server is transport-equal; an equal name server adds nothing. |
| `DnsClients.Find` | dns/resolver.go:541-549 | An exact match wins, and it is the first one; otherwise the donor is the first entry with the same transport, and none is missed. |
| `DnsClients.ServedAsBuilt` | dns/resolver.go:533-566 | What the cache invariant means for any two entries: layers and transport settings as built from scratch, sharing if and only if transport-equal. |
| `DnsClients.ShareKeepsInv` | dns/resolver.go:550-551 | Re-wrapping a shared transport keeps the invariant, including one transport per equivalence class. |
| `DnsClients.BuildKeepsInv` | dns/resolver.go:552-558 | So does building a new one. |
| `DnsClients.TransportEqualIsEquality` | dns/resolver.go:438-463 | `transportEqual` holds exactly when the name servers are equal without their wrapper-only params. |
| `DnsClients.TransportEqualIsEquivalence` | dns/resolver.go:422-463 | It is an equivalence that `Equal` implies. |
| `DnsClients.SameTransport` | dns/resolver.go:440-463 | The two loops over params decide it. |
| `DnsClients.SameTransportSameConfig` | dns/util.go:116-140 | No transport constructor reads a wrapper-only param, so transport-equal name servers build the same transport. |
| `DnsClients.ConfigMeans` | dns/util.go:116-138 | What each kind of name server's transport is made with, by net and params. |
| `DnsClients.WrapReadsWrapperParams` | dns/util.go:203-289 | Conversely the wrappers read nothing but wrapper-only params. |
| `DnsClients.LayersMean` | dns/util.go:203-289 | The layers built from params block a question type exactly when a param disables it, and add exactly the one subnet that `ecs` names, forced exactly when `ecs-override` says so. |
| `DnsClients.RewrapClient` | dns/util.go:147-158 | Peels to the raw client, whatever layers there were, and wraps by the given params only. |
| `DnsClients.DisabledTypesOf` | dns/util.go:214-239 | The disabled types are A and AAAA by their params and every known type of a qtype param, in any map order. |
| `DnsClients.PeelWrap` | dns/util.go:147-158 | Peeling undoes wrapping. |
| `DnsTtl.MinimalTTL` | dns/util.go:28-36 | The least TTL, 0 for none. |
| `DnsTtl.UpdateTTL` | dns/util.go:38-46 | Rewrites every record of a section in place by one wrapping difference and a clamp. |
| `DnsTtl.UpdateMsgTTL` | dns/util.go:106-110 | Each section is rewritten by its own minimum. |
| `DnsTtl.RewriteExactly` | dns/util.go:38-46 | What the 32-bit arithmetic gives for every section and every r, wrap-around cases included, with all other record data kept. |
| `DnsTtl.SectionShifts` | dns/util.go:38-46 | For 1 <= r <= minimum nothing wraps: every TTL loses minimum - r, lies between r and its old value, and order by TTL is kept. |
| `DnsTtl.MinimumBecomesRemaining` | dns/util.go:38-46 | A non-empty section's minimum becomes r if and only if 1 <= r <= the old minimum. |
| `DnsTtl.PutMsgToCache` | dns/util.go:60-87 | Computes what is stored and for how long. |
| `DnsTtl.PutStores` | dns/util.go:60-87 | A message is stored if and only if it is no acme challenge and is a server failure or has records, all with a TTL above 0; what is stored has no OPT record (section 6.1.1 of RFC 6891) and a non-failure outlives none of its records. |
| `DnsTtl.PutKeepsMessage` | dns/util.go:60-87 | A stored message is the message itself but for its OPT records; a failure lives 5 seconds, a non-failure as long as one of its records. |
| `DnsTtl.WithoutOptKeepsOrder` | dns/util.go:69-72 | Stripping goes record by record and keeps the order of the rest. |
| `DnsTtl.ServedTtls` | dns/resolver.go:167-181 | Serving a cached non-failure with r >= 1 seconds left never wraps: each TTL is old - (minimum - r), at least r, at most old minus the time passed, and each section's minimum is r. |
| `DnsTtl.RemainingMeans` | dns/resolver.go:171-179 | The seconds left are the greatest whole number that fits into the time left. |
| `DnsTtl.FailureCanWrap` | dns/util.go:74-78 | A cached server failure can wrap, for every number of seconds it can have left. |
| `PacketSender.StepKeepsInv` | tunnel/connection.go:104-150 | Every step of `Send`, `Process` and `Close` keeps each packet in exactly one place. |
| `PacketSender.RunKeepsInv` | tunnel/connection.go:104-150 | So it holds throughout every interleaving. |
| `PacketSender.PacketHasOneOwner` | tunnel/connection.go:104-150 | A packet is dropped at most once, and an undropped one is inside `Send`, in the channel, or in the hands of `Process` or `Close`. |
| `PacketSender.FirstInFirstOut` | tunnel/connection.go:104-146 | In every run packets leave the channel in the order they were put. |
| `PacketSender.DropsForAReason` | tunnel/connection.go:129-146 | `Send` drops a packet only when the sender is closed or the channel is full. |
| `PacketSender.CloseDropsQueued` | tunnel/connection.go:118-150 | Everything put into the channel before the drain ended, even after `Close` began, has been dropped exactly once when `Close` has returned and no packet is being processed. |
| `PacketSender.ClosedDropsRest` | tunnel/connection.go:104-150 | In those states a packet out of `Send` is dropped if and only if it is not in the channel. |
| `PacketSender.LingeringWasPutLate` | tunnel/connection.go:129-150 | In every run, a packet in the channel of a closed sender was put there after the drain had ended. |
| `PacketSender.LingersForever` | tunnel/connection.go:104-150 | Once `Close` and `Process` have returned, a packet in the channel stays there, undropped, for ever. |
| `PacketSender.LingersExactly` | tunnel/connection.go:104-150 | In any run, a packet between the two checks of `Send` can still be left in the channel for good if and only if the capacity is positive and the sender is not already abandoned with a full channel. |
| `PacketSender.FirstRecordWins` | tunnel/connection.go:42-64 | After any records a key maps to its first valid target and a target to its first valid origin. |
| `PacketSender.SentMatchesRecord` | tunnel/connection.go:65-102 | Every packet of a session went to the address its key still maps to at the end. |
| `PacketSender.PacketIsSent` | tunnel/connection.go:65-102 | A packet with a known target is sent there, one that resolves is sent there and recorded, another is not sent. |
| `PacketSender.OneTargetPerKey` | tunnel/connection.go:65-102 | Over a whole session one destination key is always sent to one address, up to unmapping. |
| `PacketSender.ReplyGoesToFirstOrigin` | tunnel/connection.go:56-64 | A reply is restored to the first valid origin ever recorded for its source, or left alone if there is none. |
| `PacketSender.Mappings.AddMapping` | tunnel/connection.go:42-54 | Overwrites only invalid records, in both maps. |
| `PacketSender.Mappings.RestoreReadFrom` | tunnel/connection.go:56-64 | Reads the reverse map with the address itself as default. |
| `PacketSender.Mappings.ProcessPacket` | tunnel/connection.go:65-102 | Sends to the known target, else to the resolved one after recording it, else nowhere. |
| `SocksAddr.RoundTrip` | adapter/inbound/util.go:14-32 | For every metadata: decoding the encoding returns it if and only if it is normalised and its host has at most 252 bytes, or 253 with a port whose low byte is the type byte (section 5 of RFC 1928). |
| `SocksAddr.EncodedBytes` | adapter/outbound/util.go:15-33 | The bytes: type 1, 3 or 4, host with its length modulo 256 or address, port in network order (section 5 of RFC 1928). |
| `SocksAddr.TrimRightFixes` | adapter/inbound/util.go:19-20 | Trimming removes exactly the trailing dots. |
| `SocksAddr.UnmapMeans` | adapter/inbound/util.go:29 | A mapped IPv4 address becomes its last four bytes; others stay. |
| `SocksAddr.LongestHost` | adapter/inbound/util.go:18-21 | 252 is the longest host for which every port survives. |
| `SocksAddr.DecodeShortHost` | adapter/inbound/util.go:18-21 | At 253 bytes the wrapped index reads the port's low byte from index 0. |
| `SocksAddr.DecodeLongHost` | adapter/inbound/util.go:18-21 | A longer host panics exactly when its length modulo 256 is 254 or 255, and is cut otherwise. |
| `SocksAddr.DecodeIp` | adapter/outbound/util.go:15-33 | An encoded address decodes to its unmapped, zoneless form with its port. |
| `SocksAddr.WireRoundTrip` | adapter/inbound/util.go:14-32 | Every well-formed address decodes, and is re-encoded byte for byte if and only if it has no trailing dot and no mapped IPv4. |
| `SocksAddr.ParseSocksAddr` | adapter/inbound/util.go:14-32 | The decoder, with out-of-range indices as failures, computes the decoding function. |

## Left out

- Lexer, parser, value functions, interpolation and regular expressions of the override language: an expression is a tree of pipelines and unions over arbitrary leaf functions.
- Nested compound updates inside value expressions (adapter/provider/override_expr.go:1829-1839), whose missing no-result check differs from the statement form.
- Sharing of sub-objects within a document, and the state of a document after a failed statement.
- The ZeroTier node, IP link, wire transport and IP stacks, MTU constants, name resolution, log lines and their deduplication.
- Which error a ZeroTier component reports: a failure step accepts any text.
- Progress properties (that a waiting goroutine is eventually served); only safety is stated.
- Rounding of the floating-point step in the jump hash, and the sticky-session and url-test strategies.
- IEEE rounding of the seconds left of a cached message, and messages already expired, which get TTL 1 in every record.
- Transports, exchanges and the effect of a disabled type or client subnet on a DNS message; a response-code client with an unknown name, which panics when it is built.
- DnsClients.RewrapClient: does not model the log lines of an invalid client subnet.
- SocksAddr.ParseSocksAddr: models a byte slice without spare capacity, where a slice bound past the length panics; with spare capacity Go bounds the slice by the capacity.
- PacketSender.Mappings.ProcessPacket: resolving a destination is a parameter, and the write itself is not modelled.
- RuleMatch.ScanOnce: rule bodies are arbitrary functions of the metadata; sub-rule tables and modes do not change during a match.
- Protocol outbounds, listeners, rule providers, tries, the fake-IP pool, HTTP and QUIC DNS, configuration structs and platform files.
