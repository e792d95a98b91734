# Topology coordinator: model and proofs

The coordinator watches ResourceSlices, keeps a topology index per node, computes partitions and device
groupings from it, publishes them as DeviceClasses, and expands claims for such a class into claims for the
underlying devices. This project models that pipeline in Dafny and proves what it guarantees.

| part | modules |
|---|---|
| topology index | `Topology`, `Extraction`, `ExtractionFacts`, `TopologyIndex`, `IndexRuns`, `IndexFacts`, `TopologyRules`, `DeviceFacts` |
| deduplication and partitions | `CounterGroups`, `Refinement`, `SplitRuns`, `NumaGroups`, `RuleOrder`, `PartitionBuilder`, `PartitionLaws`, `RootShares`, `RootMembers`, `Joining`, `Places`, `PartitionNames`, `NodeCoverage`, `ClusterPartitions` |
| grouping allocator | `Allocation`, `AllocationLaws`, `GroupingBuilder`, `GroupingLaws`, `GroupingFacts`, `CounterSets` |
| configs, aggregates, tiers | `Satisfiability`, `PartitionConfigs`, `CouplingFacts`, `Aggregates`, `AggregateCounts`, `AggregateReach`, `Tiers`, `NodeTiers`, `RootKeysApart` |
| publishing and collecting | `ClassKeys`, `NumaKeys`, `GroupingClasses`, `DeviceClasses`, `BuiltClasses`, `RailNames` |
| interleaved controller | `Reconcile`, `ReconcileWindow` |
| admission | `JsonPointer`, `RequestNames`, `TokenWords`, `ClaimExpansion`, `ClaimLaws`, `RuleConstraints`, `ExpansionCounts`, `OverriddenClasses`, `PreferredAlignments`, `ClaimPatches`, `ClaimNames`, `ClaimConstraints`, `AdmittedClaims`, `PodRewriting` |
| shared | `Collections`, `Text` |

How to read it:

- A walk over a Go map is a loop that picks any remaining key, so what is proved holds for every order.
- A loop of the source is a method, proved against a function or predicate on values; the laws are lemmas
  about that function or predicate.
- `classOf`, `driverFor`, `selectorsFor`, `naming` and `satisfiable` are parameters: the class lookup (which
  has one answer exactly under the condition of `ClassLookupDeterministic`), the CEL selectors, the truncation
  and hashing of names, and the answer of the topology model at admission time.
- `Reconcile` makes every locked method and every API call one atomic step of a shared state. What a
  plan publishes (entries, aggregates, tiers) is published in any order, which covers the order of the source.
  `pending` stands for the work queue
  with its delays; taking the item may leave a delayed duplicate behind.
- Where a promise fails, a lemma gives the exact condition: `RunAgreesIff`, `RunKeepsAllIff`, `ExchangeIff`,
  `NumaCountsAddUp`, `ExtractionConfluent`, `ClassLookupDeterministic`, `AlignedIff`, `CounterSetExclusiveIff`,
  `KeyRoundTripIff`, `RootCountIff`, `NumaTierIff`, `OnlyPublishedIff`, `RailNameEqualIff`, `AllNamesUniqueIff`,
  `StaysClosedIff`, `PartitionAlignedIff`, `PreferredStatedIff`, `ReadmissionIff`, `SameTokenIff`. Witnesses are `RuleOrderMatters`,
  `DashesLoseDevices`, `RepeatedClassOverruns`, `SanitizedRootsMerge`, `RerailedClassStays`, `PassesShareRailName`,
  `NamesCollide`, `TemplateRefDangles` and `WindowLosesUpdate`.

Points where the code does not do what its comments or its purpose suggest; the model follows the code:

- The alias list is commented as "first match wins", but the attributes come from a map, so among several
  aliases the first one visited wins (internal/controller/topology_model.go:20-40, 526-544).
- Moving a slice to another node leaves its old entry in the cache until the next rebuild
  (internal/controller/topology_model.go:232-260; `StepAgreesIff`).
- With no grouping left, the grouping sync is skipped and stale grouping classes stay
  (internal/controller/controller.go:255-266; `ReconcileGroupings`).
- All full partitions are published under the name "full" (internal/controller/deviceclass_manager.go:166-168), so of
  several profiles only one has its full class (`FullNameShared`; what has a name of its own: `SoleNameStored`).
- Satisfiability at admission is asked with counts per class, while the topology model counts per driver
  (internal/webhook/webhook.go:406-410, internal/controller/topology_model.go:387-419; `PreferredStatedIff` and
  `ClassIsNoDriver`).
- The rail index is part of a class name and not of its key, so a class that is re-railed keeps its old name
  (internal/controller/deviceclass_manager.go:173, 490-501; `RerailedClassStays`), and both passes of a grouping
  number rails from 0 (internal/controller/grouping_builder.go:185; `PassesShareRailName`).
- The constraints of a claim are kept as written, so one that names an expanded request dangles in the admitted
  claim (internal/webhook/webhook.go:227-236; `StaysClosedIff`).
- A pod that uses a claim template is looked up under the name of the template, so its references stay as they are
  (internal/webhook/webhook.go:593-610; `TemplateRefDangles`).
- Devices without the alignment attribute form a group of their own and yield "aligned" instances
  (internal/controller/grouping_builder.go:249-270; `AlignedIff`).
- Aggregates are meant to include drivers that reach all NUMA nodes, but no device's NUMA list is ever filled
  (internal/controller/topology_model.go:492-574; `IndexAggregate`).

`dafny verify dfyconfig.toml` verifies the whole project.

## Model

| member | source | states |
|---|---|---|
| `Extraction.ExtractTopologyDevice` | internal/controller/topology_model.go:492-574 | for whatever visiting order of the attribute map, the placement is the result of applying the attributes one by one in that order (`Extracts`) |
| `Extraction.FoldFields` | internal/controller/topology_model.go:500-572 | what an order computes, field by field: NUMA node, PCIe root and socket are each the last standard or rule-mapped value if there is one, else the first alias value; extended attributes are the non-standard names that a rule of the driver names |
| `Extraction.ResolveSource` | internal/controller/topology_model.go:526-566 | a standard or rule-mapped value beats every alias, wherever it stands in the order |
| `Extraction.UnsettledWitness` | internal/controller/topology_model.go:526-566 | conflicting values: two visiting orders with different results exist |
| `Extraction.ExtractionConfluent` | internal/controller/topology_model.go:492-574 | all visiting orders give one placement if and only if, per field, the standard and rule-mapped values agree and, when there are none, the aliases agree |
| `Extraction.UnambiguousExtracts` | internal/controller/topology_model.go:492-574 | unambiguous attributes: any two extractions are equal |
| `Extraction.AmbiguousExtracts` | internal/controller/topology_model.go:492-574 | ambiguous attributes: two extractions that differ exist |
| `Extraction.StrongNumaWins` | internal/controller/topology_model.go:505-562 | if standard or rule-mapped values agree on the NUMA node, that is the result, aliases or not |
| `ExtractionFacts.ExtractedPlacement` | internal/controller/topology_model.go:492-574 | in terms of attributes and rules: NUMA node and socket from a standard name or one that a rule of the driver maps there, else from an alias, else none; the PCIe root likewise without aliases; and exactly the attributes that a rule of the driver names are kept |
| `ExtractionFacts.KnownAliases` | internal/controller/topology_model.go:20-40 | the names that other drivers use for the NUMA node and the socket |
| `TopologyIndex.TopologyModel.SetRules` | internal/controller/topology_model.go:157-174 | from any state, in sync or not, the cache becomes a rebuild of all stored slices under the new rules |
| `TopologyIndex.TopologyModel.UpdateFromResourceSlice` | internal/controller/topology_model.go:187-260 | stores the slice and replaces its table entry; a slice without a node changes nothing |
| `TopologyIndex.TopologyModel.RemoveResourceSlice` | internal/controller/topology_model.go:264-296 | forgets the slice and its table entry, and the node when nothing is left of it |
| `TopologyIndex.PutAgrees` | internal/controller/topology_model.go:232-260 | storing a slice that keeps its node preserves agreement of cache and sources |
| `TopologyIndex.DropAgrees` | internal/controller/topology_model.go:264-296 | so does removing one |
| `TopologyIndex.StepAgreesIff` | internal/controller/topology_model.go:157-296 | one event keeps the cache equal to a rebuild, without empty nodes, if and only if it does not move a slice to another node |
| `TopologyIndex.RunAgrees` | internal/controller/topology_model.go:157-296 | after every run without such moves the cache is a rebuild from the last live version of each slice and the last rules |
| `IndexRuns.RunBehind` | internal/controller/topology_model.go:157-296 | after any run, moves included, the cache holds the live slices, extracted under the last rules, and exactly the entries that the events leave behind |
| `IndexRuns.RunAgreesIff` | internal/controller/topology_model.go:157-296 | after any run the cache is a rebuild if and only if the set of left-behind entries, a function of the events, is empty |
| `TopologyIndex.AgreesUnique` | internal/controller/topology_model.go:166-174 | with unambiguous attributes there is only one such cache |
| `TopologyIndex.HistoryForgotten` | internal/controller/topology_model.go:157-296 | two runs that end with the same live slices and rules end with the same index |
| `TopologyIndex.ReplayStutters` | internal/controller/controller.go:162-176 | replaying stored slices or the current rules into an index in sync changes nothing |
| `IndexFacts.EntriesDescribed` | internal/controller/topology_model.go:232-260 | every entry of an index in agreement lists the devices of its slice in order: the slice's driver, node and pool, the device's own name, capacity and counter consumption, and an extracted placement |
| `IndexFacts.LiveDescribed` | internal/controller/topology_model.go:157-296 | the same of every live slice after any run, moves included |
| `IndexFacts.VariantsCountOnce` | internal/controller/counter_groups.go:28-139 | of all devices of a node that draw first on the counter set of a device of a stored slice, from its driver and pool, exactly one is effective |
| `IndexFacts.FullCountsOne` | internal/controller/partition_builder.go:170-253 | if these are all devices of the driver, the full partition counts one |
| `CounterGroups.GroupOverlappingDevices` | internal/controller/counter_groups.go:28-91 | standalone devices in order, and one group per counter set in key order holding all its variants |
| `CounterGroups.TotalCounterConsumption` | internal/controller/counter_groups.go:163-172 | the sum of all counter values (unbounded integers) |
| `CounterGroups.SelectRepresentative` | internal/controller/counter_groups.go:143-160 | the first variant of the largest total consumption |
| `CounterGroups.RepresentativeLargest` | internal/controller/counter_groups.go:143-160 | the representative is a member and no variant consumes more |
| `CounterGroups.FilterToEffectiveDevices` | internal/controller/counter_groups.go:127-139 | standalone devices followed by the representative of every counter set |
| `CounterGroups.EffectiveVariants` | internal/controller/counter_groups.go:127-139 | of each counter set exactly the representative remains |
| `CounterGroups.EffectiveIdempotent` | internal/controller/counter_groups.go:127-139 | filtering a filtered list changes nothing |
| `CounterGroups.EffectiveSubset` | internal/controller/counter_groups.go:127-139 | no device is invented and none is repeated |
| `CounterGroups.EffectivePermutation` | internal/controller/counter_groups.go:127-159 | reordering the input may change which variant is kept, never how many devices of a driver |
| `CounterGroups.EffectiveDeviceCount` | internal/controller/counter_groups.go:109-123 | the deduplicated count per base driver is the tally of the effective devices |
| `DeviceFacts.SameResourceIff` | internal/controller/counter_groups.go:34-60 | two devices draw on one physical resource if and only if driver, pool and first counter set are equal |
| `DeviceFacts.TotalIsSum` | internal/controller/counter_groups.go:163-172 | a consumption is the sum of all amounts over all its counter sets |
| `DeviceFacts.RepresentativeFirst` | internal/controller/counter_groups.go:143-160 | the representative is the first of the largest variants: those before it are smaller |
| `DeviceFacts.BaseIsPrefix` | internal/controller/partition_builder.go:570-576 | the base driver is the name up to its first "/", or the whole name without one |
| `Refinement.GroupDevicesByAttribute` | internal/controller/partition_builder.go:524-531 | the classes of equal key, each in list order |
| `Refinement.GroupDevicesByExtendedAttribute` | internal/controller/partition_builder.go:534-545 | the classes of equal rendered value, with "none" for devices without one |
| `Refinement.DevicesShareAttribute` | internal/controller/partition_builder.go:548-567 | true exactly when all devices that carry the attribute agree on it |
| `Refinement.SplitRound` | internal/controller/partition_builder.go:278-291 | one rule: agreeing groups are kept, the others split; pieces with equal joined keys overwrite each other |
| `Refinement.SplitByRules` | internal/controller/partition_builder.go:277-292 | all rules in turn |
| `Refinement.RoundPartition` | internal/controller/partition_builder.go:278-291 | a round without key collisions turns an exact cover into an exact cover |
| `Refinement.RoundKeepsAllIff` | internal/controller/partition_builder.go:278-291 | a round loses no device if and only if no two pieces get the same joined key |
| `SplitRuns.RunKeepsAllIff` | internal/controller/partition_builder.go:277-292 | over all rules: the final groups hold every device if and only if no round of the run gave two pieces one key, and then they are an exact cover |
| `SplitRuns.LossIsDecided` | internal/controller/partition_builder.go:277-292 | whether devices are lost does not depend on the map order: either every outcome of the loop covers the devices, and then there is one, or none does |
| `Refinement.SplitSound` | internal/controller/partition_builder.go:256-292 | if the rules before the last one have values without "-", the final groups are an exact cover and each agrees on every rule, including rules applied before later splits |
| `Refinement.SplitClasses` | internal/controller/partition_builder.go:277-292 | if every device carries every rule attribute, two devices end together exactly when they start together and agree on all rule values |
| `DeviceFacts.SplitAgrees` | internal/controller/partition_builder.go:277-292 | after the rules, devices whose integer or text values of a rule's attribute differ are in different groups |
| `DeviceFacts.AgreeingStayTogether` | internal/controller/partition_builder.go:278-291 | a round without key collisions keeps devices together when all devices of their group that carry the attribute have one value, carriers or not |
| `Refinement.SameClassesSameGroups` | internal/controller/partition_builder.go:277-292 | exact covers that put the same devices together have the same groups |
| `Refinement.RuleOrderIrrelevant` | internal/controller/topology_rules.go:160-170 | under these hypotheses any two orders of the rules give the same groups |
| `NumaGroups.NumaSplitExact` | internal/controller/partition_builder.go:256-276 | the NUMA split is an exact cover of the devices that have a NUMA node, under keys that cannot run into each other |
| `NumaGroups.NumaTogether` | internal/controller/partition_builder.go:256-276 | devices start together exactly when they are on one NUMA node |
| `RuleOrder.GroupExchangeIff` | internal/controller/partition_builder.go:278-291 | on one group two attributes can be exchanged if and only if one of them is agreed on, or neither split hides a difference in the other |
| `RuleOrder.ExchangeIff` | internal/controller/partition_builder.go:277-292 | two rules give the same groups in both orders if and only if every group is exchangeable |
| `RuleOrder.ExchangeAnywhere` | internal/controller/partition_builder.go:277-292 | two adjacent rules anywhere in the list: exchangeable groups before them give the same final groups, and with no rule after them only exchangeable groups do |
| `RuleOrder.RuleOrderMatters` | internal/controller/topology_rules.go:160-170 | witness: a device without one attribute is grouped differently under the two orders of two rules, its group not being exchangeable |
| `NumaGroups.JoinedValuesLoseDevices` | internal/controller/partition_builder.go:285-285 | whenever two value pairs join to one text, the final groups do not cover the devices |
| `NumaGroups.DashesLoseDevices` | internal/controller/partition_builder.go:285-285 | witness with concrete devices: "a" + "b-c" and "a-b" + "c" |
| `PartitionBuilder.BuildPartitionFromDevices` | internal/controller/partition_builder.go:428-488 | places, deduplicated counts and first extended values of the given devices |
| `PartitionBuilder.BuildPartitionsFromGroups` | internal/controller/partition_builder.go:256-330 | no NUMA partition with fewer than two groups; otherwise one per final group, in key order, with the first capacity of each driver |
| `PartitionBuilder.CountRootsPerNuma` | internal/controller/partition_builder.go:339-352 | for every NUMA key the set of distinct PCIe roots on it |
| `PartitionBuilder.BuildPcieRootPartitions` | internal/controller/partition_builder.go:333-409 | one partition per named root, in order, with the shares of root-less capacity devices of the parent NUMA node |
| `PartitionBuilder.EnrichAll` | internal/controller/partition_builder.go:376-401 | the fold that adds count and share of each root-less capacity device |
| `PartitionBuilder.BuildNodePartitions` | internal/controller/partition_builder.go:170-253 | no partition for a node without devices; otherwise PCIe root partitions, NUMA partitions and the full partition over the effective devices |
| `Places.PartitionPlaces` | internal/controller/partition_builder.go:449-488 | a partition lists exactly the NUMA nodes, sockets and PCIe roots of its devices, each once and in order, and the first value of every extended attribute |
| `Places.NumaPartitionCapacity` | internal/controller/partition_builder.go:294-330 | a NUMA partition publishes for a driver the capacity of its first device that has any |
| `RootMembers.RootDevicesIff` | internal/controller/partition_builder.go:333-409 | a PCIe root partition holds exactly the devices on its root, and per driver without a device on the root the first device on the root's NUMA node with anything to share |
| `RootShares.ExactShare` | internal/controller/partition_builder.go:376-401 | such a device is counted once and hands out exactly each capacity divided by the number of distinct roots on the NUMA node, capacities below one unit left out |
| `RootShares.SharesReach` | internal/controller/partition_builder.go:376-401 | over all roots, a root-less device hands out at least the number of child roots without its driver times capacity / roots |
| `Joining.SameProfileIff` | internal/controller/partition_builder.go:491-502 | two nodes have one profile if and only if the same drivers are counted on both, for driver names without "_" |
| `PartitionNames.PartitionNamesApart` | internal/controller/partition_builder.go:170-253 | all partitions of a node have different names |
| `NodeCoverage.DevicesHeld` | internal/controller/partition_builder.go:170-253 | every effective device is in the full partition, in a PCIe root partition if it has a named root, and in a NUMA partition if it has a NUMA node, the node has several, and the rules before the last have dash-free values |
| `NodeCoverage.OneNodeNoNuma` | internal/controller/partition_builder.go:256-276 | a node whose devices are on fewer than two NUMA nodes has no NUMA partition |
| `PartitionLaws.GroupCount` | internal/controller/partition_builder.go:428-448 | the count that a partition publishes for a driver is the number of its devices of that driver |
| `PartitionLaws.PartitionSizes` | internal/controller/partition_builder.go:256-292 | the sizes of the groups of an exact cover add up to the list |
| `PartitionLaws.NumaCountIff` | internal/controller/partition_builder.go:187-241 | the counts of a driver over the NUMA partitions add up to at most the full count, and to exactly that if and only if no device of the driver is missing from the final groups |
| `PartitionLaws.NumaCountsAddUp` | internal/controller/partition_builder.go:187-241 | for every driver the counts add up to the full count, if and only if the final groups cover the effective devices |
| `PartitionLaws.NumaCountsByRun` | internal/controller/partition_builder.go:187-292 | when every effective device has a NUMA node: if and only if no round of the splitting gave two pieces one key |
| `PartitionLaws.ParentCountsRoot` | internal/controller/partition_builder.go:339-372 | a root is among the roots counted on the NUMA node it takes as parent |
| `PartitionLaws.PartitionShare` | internal/controller/partition_builder.go:376-403 | one partition hands out at most capacity / roots of a device, and only when its parent is the device's NUMA node |
| `PartitionLaws.CapacityConserved` | internal/controller/partition_builder.go:339-403 | the shares of a root-less device with integer capacity V, summed over all PCIe root partitions, are at most V |
| `ClusterPartitions.BuildPartitions` | internal/controller/partition_builder.go:79-93 | exactly one result for every node that has devices, each built from that node's devices |
| `Allocation.MaxInstancesIsMin` | internal/controller/grouping_builder.go:204-221 | the number of rounds is the minimum over the entries of floor(available / count) |
| `Allocation.DistinctClassesFit` | internal/controller/grouping_builder.go:204-243 | with distinct classes and positive counts no slice leaves its class list |
| `Allocation.NoFurtherInstance` | internal/controller/grouping_builder.go:204-221 | after the last round some class cannot supply another instance |
| `Allocation.AllocateGroup` | internal/controller/grouping_builder.go:196-243 | the allocation loop with its cursors finishes if and only if all rounds fit, and then yields the planned lists |
| `AllocationLaws.InstanceExact` | internal/controller/grouping_builder.go:223-239 | every instance holds exactly the required number of devices of every class |
| `AllocationLaws.NoDoubleUse` | internal/controller/grouping_builder.go:223-239 | the instances of a group together use no device twice |
| `AllocationLaws.RepeatedClassOverruns` | internal/controller/grouping_builder.go:229-231 | a class listed twice with one count overruns whenever it is the scarcest class and at least one round is due |
| `GroupingBuilder.BuildInstance` | internal/controller/grouping_builder.go:273-340 | places, counts per class, capacities and devices of one instance |
| `GroupingBuilder.FindInstances` | internal/controller/grouping_builder.go:169-246 | a pass finishes if and only if no alignment group overruns; groups in key order, rail index counting from 0 |
| `GroupingBuilder.CollectUsedDevices` | internal/controller/grouping_builder.go:343-352 | the identities of all devices in the instances |
| `GroupingBuilder.FilterOutDevices` | internal/controller/grouping_builder.go:355-367 | the devices whose identity is unused, in order |
| `GroupingBuilder.NodeHasRequiredClasses` | internal/controller/grouping_builder.go:146-164 | true exactly when the effective devices suffice for every entry on its own |
| `GroupingBuilder.EvaluateGrouping` | internal/controller/grouping_builder.go:116-141 | nothing exactly without the required classes; finishes exactly when they suffice and neither pass overruns, and then yields the preferred pass and, when defined, the fallback pass over the devices not used |
| `GroupingLaws.PlanExact` | internal/controller/grouping_builder.go:169-246 | every instance of a pass is exact and comes from one alignment group |
| `GroupingLaws.AlignedIff` | internal/controller/grouping_builder.go:249-270 | the devices of an instance share a non-empty value of the alignment attribute if and only if its alignment key is not empty |
| `GroupingLaws.GroupPlanLength` | internal/controller/grouping_builder.go:204-239 | each group yields exactly the minimum over the entries of floor(available / count) |
| `GroupingLaws.ExactCounts` | internal/controller/grouping_builder.go:273-340 | the published counts of an exact instance are the counts of the grouping |
| `GroupingLaws.PassNoDoubleUse` | internal/controller/grouping_builder.go:169-246 | one pass uses no device twice over all its groups |
| `GroupingLaws.PassDrawsOnCounterSet` | internal/controller/grouping_builder.go:169-246 | one pass draws on a counter set at most once per alignment key of its variants, so once if they share a key |
| `GroupingLaws.RailsDeterministic` | internal/controller/grouping_builder.go:175-242 | for every permutation of the devices: same number of instances, and the i-th has the same rail index, alignment key and device counts |
| `GroupingLaws.NoDoubleAllocation` | internal/controller/grouping_builder.go:116-141 | preferred and fallback instances share no (driver, device) pair and together use no device twice |
| `GroupingFacts.PassPerGroup` | internal/controller/grouping_builder.go:169-246 | a pass that finishes yields, for every value of the alignment attribute that a device has, the minimum over the entries of floor(devices of the class / count) instances, each exact and drawn from that value's devices, and no other instance |
| `GroupingFacts.RemainingIff` | internal/controller/grouping_builder.go:355-367 | the fallback pass gets exactly the devices whose driver and name no preferred instance holds |
| `GroupingFacts.EvaluationYields` | internal/controller/grouping_builder.go:116-141 | an evaluation gives what the preferred alignment yields from all devices and what the fallback alignment, if there is one, yields from the devices that are left |
| `GroupingFacts.CheckMissesNothing` | internal/controller/grouping_builder.go:116-164 | when the class check fails, no alignment would yield an instance |
| `GroupingFacts.InstanceAt` | internal/controller/grouping_builder.go:181-240 | the n-th instance of a pass has rail n, its grouping's name and alignment, and its own devices |
| `Places.InstancePlaces` | internal/controller/grouping_builder.go:285-340 | an instance lists exactly the NUMA nodes, sockets and PCIe roots of its devices, each once and in order, and counts its devices per class |
| `Places.InstanceCapacity` | internal/controller/grouping_builder.go:296-309 | an instance carries per class the capacity of the last entry that states one |
| `PartitionNames.InstanceNamesApart` | internal/controller/grouping_builder.go:273-283 | the instances of one pass have different names |
| `CounterSets.OneIdOneDraw` | internal/controller/grouping_builder.go:116-141 | variants with one identity and one alignment key per level: the two passes together draw on the counter set at most once |
| `CounterSets.BothPassesDraw` | internal/controller/grouping_builder.go:131-135 | for any device list in which the aligned variants of a counter set have two identities: a grouping exists for which both passes draw on it |
| `CounterSets.CounterSetExclusiveIff` | internal/controller/grouping_builder.go:116-141 | over all groupings of two levels: none draws on the counter set twice if and only if its variants have one identity |
| `TopologyRules.TopologyRuleStore.Load` | internal/controller/topology_rules.go:113-135 | a valid ConfigMap replaces the rule of its name and no other |
| `TopologyRules.TopologyRuleStore.RemoveConfigMap` | internal/controller/topology_rules.go:138-146 | forgets the rule of that name and no other |
| `TopologyRules.TopologyRuleStore.GetRules` | internal/controller/topology_rules.go:149-157 | every stored rule once, in some order |
| `TopologyRules.TopologyRuleStore.GetGroupingRules` | internal/controller/topology_rules.go:160-170 | every grouping rule once, in some order |
| `TopologyRules.TopologyRuleStore.GetMatchConstraintRules` | internal/controller/topology_rules.go:176-206 | every match rule once, plus the built-in PCIe root rule exactly when none is on the PCIe root |
| `TopologyRules.AlwaysPcieConstraint` | internal/controller/topology_rules.go:176-206 | some match rule is on the PCIe root, whatever is stored |
| `TopologyRules.MatchRulesAre` | internal/controller/topology_rules.go:176-206 | the match rules are the stored rules with a match constraint, and at the end the required default rule for all drivers on the PCIe root, with the NUMA node as fallback, exactly when none of them is on the PCIe root |
| `TopologyRules.GroupingRulesAre` | internal/controller/topology_rules.go:160-170 | the grouping rules are exactly the stored rules that partition by group |
| `TopologyRules.TopologyRuleStore.GetDeviceClassForDriver` | internal/controller/topology_rules.go:224-234 | an override of the driver, or the driver when there is none |
| `TopologyRules.ClassLookupDeterministic` | internal/controller/topology_rules.go:224-234 | the lookup has one answer if and only if the overrides for the driver agree |
| `TopologyRules.LookupIs` | internal/controller/topology_rules.go:224-234 | the lookup gives the class of a stored rule of the driver that names one, and the driver itself when there is none |
| `Satisfiability.AllDevices` | internal/controller/topology_model.go:103-109 | the devices of all slices of a node, in some slice order |
| `Satisfiability.EnumerationsPermute` | internal/controller/topology_model.go:103-109 | any two such lists are permutations of each other |
| `Satisfiability.IsConstraintSatisfiableOnNode` | internal/controller/topology_model.go:387-419 | true exactly when one value is carried by enough devices of every required driver |
| `Satisfiability.IsConstraintSatisfiable` | internal/controller/topology_model.go:373-384 | true exactly when some node has such a value |
| `Satisfiability.IsPartitionConstraintSatisfiable` | internal/controller/deviceclass_manager.go:930-975 | true exactly when at least two drivers publish the attribute and one value occurs often enough for every publishing driver |
| `Satisfiability.OccurrencesAreDevices` | internal/controller/deviceclass_manager.go:940-958 | with duplicate-free value lists, occurrences are distinct devices |
| `DeviceFacts.NumaSatisfiableIff` | internal/controller/topology_model.go:387-461 | on a node of the index a NUMA constraint is satisfiable if and only if one NUMA node has enough devices of every required driver |
| `DeviceFacts.RootSatisfiableIff` | internal/controller/topology_model.go:387-461 | and a PCIe root constraint if and only if one named root has |
| `DeviceFacts.PartitionSatisfiableIff` | internal/controller/deviceclass_manager.go:930-975 | in terms of field values: two base drivers have a value, and one value occurs often enough among the devices of every required driver that has any |
| `PartitionConfigs.BuildPartitionConfig` | internal/controller/deviceclass_manager.go:584-736 | one sub-resource per driver, one alignment per emitting rule in rule order, and the coupling level |
| `PartitionConfigs.ApplyMatchRule` | internal/controller/deviceclass_manager.go:662-733 | a rule emits an alignment exactly when it applies, some driver publishes the attribute, and a fallback rule has a witness |
| `PartitionConfigs.CouplingOrderFree` | internal/controller/deviceclass_manager.go:659-735 | the coupling (tight exactly when some applicable fallback rule has a witness) does not depend on the rule order |
| `CouplingFacts.CouplingIff` | internal/controller/deviceclass_manager.go:659-735 | tight if and only if a rule with a fallback is emitted, and without coupling if and only if no such rule applies |
| `CouplingFacts.OneRootIsTight` | internal/controller/deviceclass_manager.go:662-735 | without a stored match rule on the PCIe root, a partition with devices of two drivers on one root, and none on another, is tight when no driver on the root is counted more often than it has devices there |
| `PartitionConfigs.AlignmentsNameDrivers` | internal/controller/deviceclass_manager.go:675-701 | every alignment names exactly the publishing drivers, each once |
| `PartitionConfigs.BuildGroupingConfig` | internal/controller/deviceclass_manager.go:1076-1154 | one sub-resource per class, and an alignment per applicable rule that at least two classes publish |
| `PartitionConfigs.GroupingConfigClosed` | internal/controller/deviceclass_manager.go:1076-1154 | the alignments of a grouping config name at least two of its own classes, each once |
| `PartitionConfigs.PartitionConfigClosed` | internal/controller/deviceclass_manager.go:591-733 | the alignments of a partition config name its own classes, if no class is overridden |
| `ExpansionCounts.PartitionHolds` | internal/controller/deviceclass_manager.go:591-657 | the config of a partition holds of every class the devices of all drivers of that class |
| `ExpansionCounts.DriverHasSub` | internal/controller/deviceclass_manager.go:591-657 | every driver of the partition has a sub-resource with its class, count, capacity and selectors |
| `ExpansionCounts.GroupingHolds` | internal/controller/deviceclass_manager.go:1076-1110 | the config of a grouping instance holds of every class the devices of the instance, with the instance's capacity |
| `Aggregates.ExtendState` | internal/controller/deviceclass_manager.go:202-222 | adding one entry to an aggregate state |
| `Aggregates.AggregateStates` | internal/controller/deviceclass_manager.go:198-256 | for every visiting order: per profile and type, on how many representatives each driver is, the minimum of its counts, all devices, primary NUMA nodes and totals |
| `Aggregates.IsDriverReachableToAll` | internal/controller/deviceclass_manager.go:392-418 | true exactly when every NUMA node is reached by some device of the driver |
| `Aggregates.CountSharingNumas` | internal/controller/deviceclass_manager.go:422-443 | the maximum number of partition NUMA nodes that one device of the driver lists |
| `Aggregates.Intersect` | internal/controller/deviceclass_manager.go:258-284 | which drivers the aggregate gets, and how many devices of each |
| `Aggregates.EverywhereGetsMinimum` | internal/controller/deviceclass_manager.go:263-267 | a driver on all representatives gets exactly the minimum of their counts |
| `Aggregates.ShareBound` | internal/controller/deviceclass_manager.go:271-278 | a share is at least 1, and share times sharing nodes is at most max(minimum, sharing) |
| `Aggregates.ShareLargest` | internal/controller/deviceclass_manager.go:271-278 | a share is the largest such: one more for every sharing node would exceed the minimum |
| `Aggregates.PartialNeedsReach` | internal/controller/deviceclass_manager.go:268-283 | a driver on some representatives only is admitted if and only if the aggregate is NUMA and the driver reaches all nodes; its share is bounded as above |
| `AggregateReach.OnlyEverywhere` | internal/controller/deviceclass_manager.go:258-284 | when no device lists NUMA nodes, a driver is in an aggregate if and only if it is on all representatives |
| `AggregateReach.IndexAggregate` | internal/controller/deviceclass_manager.go:258-284 | this is so for every NUMA aggregate of partitions built from the index, because extraction fills no NUMA list |
| `AggregateCounts.AggregateCountsPartitions` | internal/controller/deviceclass_manager.go:198-205 | with one profile, the count of an aggregate is the number of partitions of its type |
| `Tiers.Gcd` | internal/controller/deviceclass_manager.go:1304-1309 | terminates with the greatest common divisor |
| `Tiers.FractionToTierName` | internal/controller/deviceclass_manager.go:1296-1302 | the name of 1/(d/n) when n divides d and the quotient is in the table, else none |
| `Tiers.ReducedName` | internal/controller/deviceclass_manager.go:1283-1302 | reducing by the greatest common divisor leaves a listed fraction exactly in that case |
| `Tiers.TierNamedIff` | internal/controller/deviceclass_manager.go:1283-1302 | a name exists if and only if n divides d with quotient 1, 2, 3, 4, 6, 8, 12 or 16 |
| `Tiers.TierTable` | internal/controller/deviceclass_manager.go:1283-1292 | the names: n of n is full, of 2n half, of 3n third, of 4n quarter, of 6n sixth, of 8n eighth, of 12n twelfth, of 16n sixteenth |
| `Tiers.TierScales` | internal/controller/deviceclass_manager.go:1296-1309 | scaling numerator and denominator changes nothing |
| `Tiers.ComputeTierName` | internal/controller/deviceclass_manager.go:368-386 | the tier of an aggregate; none for the whole node, for full partitions, or when the name is the type's own |
| `Tiers.RootTierIs` | internal/controller/deviceclass_manager.go:368-386 | the PCIe root aggregate of a node with N >= 2 roots is named for 1/N |
| `Tiers.NumaTierIsUnitFraction` | internal/controller/deviceclass_manager.go:1296-1309 | the arithmetic part: (R / M) / R is named 1/M when M divides R |
| `Tiers.NumaTierIff` | internal/controller/deviceclass_manager.go:1296-1309 | for M with a name in the table, (R / M) / R is named 1/M if and only if M divides R |
| `NodeTiers.RootCountIff` | internal/controller/deviceclass_manager.go:313-318 | the counted root entries are as many as the root partitions if and only if no two of these share a key |
| `NodeTiers.EntryCountIff` | internal/controller/deviceclass_manager.go:113-141 | for every partition type of one profile: as many entries as partitions if and only if no two of these share a key |
| `NodeTiers.NumaAggregateTier` | internal/controller/deviceclass_manager.go:313-331 | one profile, M >= 2 NUMA partitions and R root partitions with distinct keys: the planned tier is that of (R / M) / R, the name of 1/M when M divides R and, if the table has that name, only then |
| `NodeTiers.NodeTier` | internal/controller/deviceclass_manager.go:368-386 | the same from the partitions of one node, with R the number of its named PCIe roots |
| `RootKeysApart.PciNodeTier` | internal/controller/deviceclass_manager.go:368-386 | the same for roots with PCI names that sanitizing keeps apart |
| `RootKeysApart.PciRootKeysIff` | internal/controller/deviceclass_manager.go:119-127 | roots with PCI names of one length share a key if and only if sanitized names, NUMA suffixes and couplings are equal |
| `RootKeysApart.SanitizedRootsMerge` | internal/controller/deviceclass_manager.go:122-124 | witness: the roots "pci0:0" and "pci0.0" share a key, on the same NUMA nodes and with the same coupling |
| `ClassKeys.KeyRoundTripIff` | internal/controller/deviceclass_manager.go:119-127 | rebuilding the key from the labels gives the key of publication, if and only if the partition is not a nameless root without NUMA nodes |
| `ClassKeys.SuffixShape` | internal/controller/deviceclass_manager.go:913-924 | the key suffix starts with "-", and is a lone "-" only in that case |
| `NodeCoverage.SanitizedIff` | internal/controller/grouping_builder.go:370-376 | sanitizing identifies exactly the texts of one length that differ in separators and in the case of letters only |
| `NumaKeys.SuffixIff` | internal/controller/deviceclass_manager.go:915-924 | non-negative node lists have one NUMA suffix if and only if they are equal |
| `NumaKeys.NumaKeysIff` | internal/controller/deviceclass_manager.go:119-127 | NUMA partitions of one profile share a key if and only if they have the same NUMA nodes and coupling |
| `NumaKeys.NumaEntries` | internal/controller/deviceclass_manager.go:113-141 | NUMA partitions on different NUMA nodes: as many entries as partitions |
| `NumaKeys.NumaNamesApart` | internal/controller/deviceclass_manager.go:165-182 | and as many published names |
| `NumaKeys.NodeNumaEntries` | internal/controller/partition_builder.go:256-330 | without grouping rules, a node with M >= 2 NUMA nodes gets M NUMA entries |
| `ClassKeys.BuiltRootsNamed` | internal/controller/partition_builder.go:354-372 | a built PCIe root partition has no root, or exactly the named root it was built for |
| `BuiltClasses.BuiltItemsNamed` | internal/controller/partition_builder.go:170-253 | every partition of every node that the builder makes has a key its labels give back |
| `DeviceClasses.CollectSeen` | internal/controller/deviceclass_manager.go:113-141 | one entry per key, standing for the first partition with that key and counting all of them |
| `NodeCoverage.PartitionSeen` | internal/controller/deviceclass_manager.go:113-141 | every partition of every node has an entry under its key, which counts the partitions with that key |
| `DeviceClasses.AssignRails` | internal/controller/deviceclass_manager.go:143-163 | rails number the root entries from 0 in the order of their roots, each number once |
| `DeviceClasses.EntryKeyed` | internal/controller/deviceclass_manager.go:165-179 | the labels of a published entry give back its key |
| `DeviceClasses.KeysPublished` | internal/controller/deviceclass_manager.go:346-357 | the active keys are exactly the keys of what the plan publishes |
| `DeviceClasses.PublisherKeyed` | internal/controller/deviceclass_manager.go:165-343 | the labels of every planned class, of an entry, an aggregate or a tier, give back its key |
| `DeviceClasses.DeviceClassManager.PublishEntries` | internal/controller/deviceclass_manager.go:165-182 | publishes exactly one name per entry, each with the labels of an entry of that name, all with active keys |
| `DeviceClasses.DeviceClassManager.SyncDeviceClasses` | internal/controller/deviceclass_manager.go:110-364 | one sync publishes exactly the planned names, under each the labels of something that the plan publishes there, deletes none of them, leaves every surviving managed partition class with an active key, and touches no other class |
| `RailNames.OnlyPublishedIff` | internal/controller/deviceclass_manager.go:346-360 | the surviving managed partition classes are all published names if and only if no older class with an active key has another name |
| `RailNames.RerailedClassStays` | internal/controller/deviceclass_manager.go:143-179 | a root class whose rail index changes stays under its old name, in every plan of one profile whose entries know their places |
| `RailNames.BuiltPlaced` | internal/controller/partition_builder.go:170-253 | built NUMA partitions know their NUMA nodes and built root partitions their root |
| `RailNames.RailNameEqualIff` | internal/controller/deviceclass_manager.go:1015-1015 | two grouping instances publish under one name if and only if sanitized grouping name and rail index are equal |
| `RailNames.PassesShareRailName` | internal/controller/grouping_builder.go:185-185 | the first preferred and the first fallback instance of a grouping have different keys and one class name |
| `DeviceClasses.DeviceClassManager.CleanupStaleDeviceClasses` | internal/controller/deviceclass_manager.go:472-513 | removes exactly the managed partition classes whose rebuilt key is not active |
| `DeviceClasses.DeviceClassManager.SyncGroupingDeviceClasses` | internal/controller/deviceclass_manager.go:979-1063 | the grouping classes are afterwards exactly the active names; every other class that is not overwritten is unchanged |
| `DeviceClasses.DeviceClassManager.CleanupStaleGroupingDeviceClasses` | internal/controller/deviceclass_manager.go:1217-1238 | removes exactly the grouping classes whose name is not active |
| `DeviceClasses.DeviceClassManager.ReconcileGroupings` | internal/controller/controller.go:247-266 | with some definition the sync runs on the merged list; with none the store is left as it is, stale grouping classes included |
| `GroupingClasses.CollectInstances` | internal/controller/deviceclass_manager.go:986-1012 | the first instance of every key |
| `NodeCoverage.InstanceSeen` | internal/controller/deviceclass_manager.go:986-1012 | every instance of every node has a representative with its key |
| `Places.RootlessKeysIff` | internal/controller/deviceclass_manager.go:991-999 | instances of one grouping and alignment without PCIe roots share a key if and only if their devices are on the same NUMA nodes |
| `Places.RootedKeysIff` | internal/controller/deviceclass_manager.go:991-999 | with PCIe roots they do if and only if the joined, sanitized roots are equal |
| `GroupingClasses.MergeGroupings` | internal/controller/controller.go:433-446 | one definition per name, the ConfigMap's before the detected one; empty only when both lists are |
| `GroupingClasses.MergedAre` | internal/controller/controller.go:433-446 | with names unique in each source: all defined groupings and those detected ones whose name is not defined |
| `Reconcile.StepKeeps` | internal/controller/controller.go:187-320 | every step of start-up, handlers and worker keeps the invariant: a reconcile is promised, or what the worker has read is current |
| `Reconcile.PromiseMade` | internal/controller/controller.go:282-372 | a start-up or handler step that changes what the worker has read leaves a promise behind, outside the start-up window |
| `Reconcile.PromiseKept` | internal/controller/controller.go:201-216 | only taking the item clears the queue, and a failed reconcile puts it back |
| `Reconcile.WorkerKeeps` | internal/controller/controller.go:219-248 | a reconcile whose inputs have not changed stays current at every step, up to the swept store |
| `Reconcile.Quiescence` | internal/controller/controller.go:187-320 | over every interleaving: with nothing queued, running or half handled, the index is a rebuild under the current rules, every managed partition class has a key that the current index and rules give, and under every name they give there is a class that they publish under that name, unless the last grouping sync wrote it |
| `Reconcile.SoleNameStored` | internal/controller/deviceclass_manager.go:165-364 | at rest, whatever has a name of its own has its class, with its own labels and key |
| `Reconcile.RestExact` | internal/controller/deviceclass_manager.go:165-364 | when all names are apart, the keys of the partition classes at rest are exactly the active keys |
| `Reconcile.LeftOverCollected` | internal/controller/controller.go:187-248 | a complete run, from start-up to rest, in which a class left by an earlier cluster is collected |
| `ReconcileWindow.LostUpdate` | internal/controller/controller.go:190-194 | at rest inside the window, emptying the only slice before `synced` is set leads to rest with every managed partition class stale |
| `ReconcileWindow.WindowReached` | internal/controller/controller.go:187-248 | a run from start-up reaches rest inside the window with a slice indexed and its class published |
| `ReconcileWindow.WindowLosesUpdate` | internal/controller/controller.go:187-292 | a run from start-up with one slice change inside the window ends at rest with a stale class |
| `JsonPointer.RoundTrip` | internal/webhook/webhook.go:985-989 | unescaping an escaped token gives the token (sections 3 and 4 of RFC 6901) |
| `JsonPointer.EscapedIsOneToken` | internal/webhook/webhook.go:985-989 | an escaped token has no "/" |
| `RequestNames.SanitizeDeviceClassName` | internal/webhook/webhook.go:550-572 | the repeated replacement terminates with every run of dashes collapsed, ends trimmed, "sub" when nothing is left |
| `RequestNames.TokenShape` | internal/webhook/webhook.go:550-572 | the result is a DNS-safe label: lower-case letters, digits and single inner dashes |
| `RequestNames.TokenStable` | internal/webhook/webhook.go:550-572 | sanitizing twice changes nothing |
| `TokenWords.TokenIsWords` | internal/webhook/webhook.go:550-572 | a token is the words of the name (letters in lower case, everything else a separator), in order, joined by single dashes; "sub" without words |
| `TokenWords.SameTokenIff` | internal/webhook/webhook.go:550-572 | two class names have one token if and only if they have the same words |
| `TokenWords.TokenKept` | internal/webhook/webhook.go:550-572 | a name that is a DNS-safe label already is kept |
| `TokenWords.CaseAndSeparators` | internal/webhook/webhook.go:550-572 | names that differ in the case of letters and in separators only have one token |
| `RequestNames.InstancesApart` | internal/webhook/webhook.go:323-328 | requests of different instances of one request have different names |
| `ClaimExpansion.ExpandSinglePartition` | internal/webhook/webhook.go:346-515 | the sub-requests and constraints of one instance, all branches for repeated classes included |
| `ClaimExpansion.ExpandRequest` | internal/webhook/webhook.go:315-335 | the instances of a request of count N, one after the other |
| `ClaimLaws.CountConserved` | internal/webhook/webhook.go:315-375 | N instances ask for N times the devices of every class |
| `ExpansionCounts.ExpansionCount` | internal/webhook/webhook.go:315-375 | an expanded request asks, of every class, for its own count (1 when that is below 2) times the devices of the partition |
| `ExpansionCounts.AdmittedCount` | internal/webhook/webhook.go:164-208 | the admitted claim asks, of every class, for the sum of this over its expanded requests and of the counts of the others |
| `ExpansionCounts.GeneratedAt` | internal/webhook/webhook.go:315-400 | request j of instance i stands at i times the sub-resources plus j, has the documented name, and asks for class, count, parsed capacities and selectors of sub-resource j with the user's selectors appended |
| `ExpansionCounts.GeneratedAsks` | internal/webhook/webhook.go:366-400 | every generated request asks for some sub-resource in this way |
| `ClaimLaws.NamesUniqueIff` | internal/webhook/webhook.go:323-366 | the generated names are unique if and only if the sanitized classes are distinct |
| `ClaimLaws.Origin` | internal/webhook/webhook.go:315-400 | the generated requests are exactly those of the N instances |
| `ClaimLaws.ConstraintsInside` | internal/webhook/webhook.go:426-512 | for every config: each constraint has at least two entries, all requests of one instance |
| `ClaimLaws.ConstraintsExact` | internal/webhook/webhook.go:426-512 | for a closed config with distinct sanitized classes: per instance exactly one constraint per alignment that is required (or preferred and satisfiable) and names at least two requests, over exactly these, and no other constraint |
| `ClaimLaws.GroupingAligned` | internal/controller/deviceclass_manager.go:1076-1154 | every required alignment of a grouping config becomes a constraint in every instance |
| `ClaimLaws.PartitionAligned` | internal/controller/deviceclass_manager.go:591-733 | so does every required alignment of a partition config between at least two drivers, when no class is overridden |
| `RuleConstraints.RuleTies` | internal/controller/deviceclass_manager.go:591-733 | a match rule that is required, unset, or preferred and satisfiable ties, in every instance and without class overrides, any two drivers of the partition that publish its attribute; a rule with a fallback needs a value that satisfies the partition |
| `RuleConstraints.ConstraintHasRule` | internal/controller/deviceclass_manager.go:591-733 | and every constraint is what such a rule asks for in one instance, over exactly the drivers that publish its attribute |
| `RuleConstraints.GroupingRuleTies` | internal/controller/deviceclass_manager.go:1076-1154 | for a grouping the same of any two classes whose drivers have a value, overridden or not |
| `ClaimLaws.DriverResolvesIff` | internal/webhook/webhook.go:440-458 | a driver name with a character that sanitizing replaces resolves if and only if it is a sub-resource class |
| `ClaimLaws.OverriddenDriversLost` | internal/controller/deviceclass_manager.go:593-593 | an alignment whose drivers are all overridden produces no constraint |
| `OverriddenClasses.AlignmentNarrowed` | internal/webhook/webhook.go:432-477 | an enforced alignment becomes one constraint over exactly those of its drivers that are sub-resource classes, and is lost with fewer than two |
| `OverriddenClasses.AlignmentStatedIff` | internal/webhook/webhook.go:432-477 | it becomes the constraint it states if and only if every driver it names is a sub-resource class |
| `OverriddenClasses.PartitionAlignedIff` | internal/controller/deviceclass_manager.go:591-733 | for partition configs under any class override: if and only if every driver it names is the class of some driver of the partition |
| `PreferredAlignments.PreferredStatedIff` | internal/webhook/webhook.go:426-431 | a preferred alignment becomes its constraint if and only if one value of one node is carried by enough devices whose driver name is the class, for every class |
| `PreferredAlignments.ClassIsNoDriver` | internal/webhook/webhook.go:406-431 | a preferred alignment is dropped whenever some requested class is not the driver name of any device |
| `PreferredAlignments.PreferredWithoutOverrides` | internal/webhook/webhook.go:406-431 | without overrides it becomes its constraint if and only if some node satisfies it for the partition's own counts |
| `ClaimPatches.GetPartitionConfig` | internal/webhook/webhook.go:519-547 | the first partition config that this driver stored in the class; none for an unreadable class |
| `ClaimPatches.FirstConfigIs` | internal/webhook/webhook.go:519-547 | there is a config if and only if some entry of this driver holds one, and then it is that of the first such entry |
| `ClaimPatches.ExpandRequests` | internal/webhook/webhook.go:170-208 | requests, constraints and name mapping of a whole claim |
| `ClaimPatches.ExpandClaim` | internal/webhook/webhook.go:164-310 | no patch if and only if nothing expands; otherwise the patch applies and yields the expanded claim |
| `ClaimPatches.AnnotationApplied` | internal/webhook/webhook.go:281-304 | the mapping lands under its own annotation key, with or without annotations on the claim |
| `ClaimPatches.ReadmissionIff` | internal/webhook/webhook.go:164-238 | admitting the admitted claim again yields no patch if and only if no sub-resource class of an expanded request is a partition class |
| `AdmittedClaims.ExpandedInPlace` | internal/webhook/webhook.go:170-208 | every request is replaced where it stands, or stays there |
| `AdmittedClaims.AdmittedConstraints` | internal/webhook/webhook.go:221-238 | the admitted claim has its own constraints first, and after them exactly those of its expanded requests |
| `AdmittedClaims.PartitionRuleAdmitted` | internal/webhook/webhook.go:164-238 | from a rule to the admitted claim: without class overrides an enforced match rule ties, in every instance that a request for a partition class asks for, any two drivers of the partition that publish its attribute |
| `AdmittedClaims.GroupingRuleAdmitted` | internal/webhook/webhook.go:164-238 | the same from a rule to a request for a grouping class |
| `AdmittedClaims.ConstrainedIff` | internal/webhook/webhook.go:460-512 | when a class has several requests, and off the NUMA node, one constraint per index over what every driver has there; otherwise one over all names |
| `AdmittedClaims.PairIs` | internal/webhook/webhook.go:479-512 | the pair at an index takes from every driver the request at the index, or its only request |
| `AdmittedClaims.NumaMentioned` | internal/webhook/webhook.go:479-484 | the NUMA node attribute and every attribute whose name holds "numaNode" count as NUMA, the PCIe root does not |
| `ClaimNames.ClaimNamesUniqueIff` | internal/webhook/webhook.go:164-208 | when no request name continues another after "-", the names of the expanded claim are unique if and only if every expanded request has distinct sanitized classes |
| `ClaimNames.AllNamesUniqueIff` | internal/webhook/webhook.go:164-208 | for every claim: the generated names are unique if and only if every expanded request has distinct sanitized classes and no two requests collide |
| `ClaimNames.CollideIff` | internal/webhook/webhook.go:323-366 | a name that continues another after "-": the two requests collide if and only if the shorter one expands and one of its tails is what the longer name adds, followed by a tail of that if it expands |
| `ClaimNames.NamesCollide` | internal/webhook/webhook.go:323-328 | witness: a claim with a request of count 2 or more and a request called like its first instance repeats a name |
| `ClaimConstraints.GeneratedClosed` | internal/webhook/webhook.go:426-512 | every generated constraint of a claim names requests of the expanded claim |
| `ClaimConstraints.StaysClosedIff` | internal/webhook/webhook.go:227-236 | a closed claim with names apart stays closed if and only if none of its own constraints names a request that expands |
| `PodRewriting.CollectMappings` | internal/webhook/webhook.go:585-628 | the readable mapping of every pod claim |
| `PodRewriting.RewriteContainer` | internal/webhook/webhook.go:637-657 | the references of one container, each mapped one replaced by its generated names in order |
| `PodRewriting.HandlePodAdmission` | internal/webhook/webhook.go:577-672 | the patch applies and rewrites every reference of every container and nothing else |
| `PodRewriting.PodStaysValid` | internal/webhook/webhook.go:634-666 | if every reference to a named claim was valid against the claims as written, every such reference of the rewritten pod is valid against the claims as admitted |
| `PodRewriting.TemplateRefDangles` | internal/webhook/webhook.go:585-610 | a reference through a template is not rewritten when no claim has the name of the template, and a request that expands is gone from the generated claim |
| `PodRewriting.MappingExact` | internal/webhook/webhook.go:201-207 | with unique request names, a request is mapped if and only if it expands, and then to exactly its generated names |
| `PodRewriting.ReferenceExpands` | internal/webhook/webhook.go:634-666 | a reference to a request of an admitted claim becomes references to all its generated requests, one by one and in order; a reference to a request that does not expand, or to the whole claim, stays |
| `PodRewriting.ContainerExpands` | internal/webhook/webhook.go:577-672 | in every container and init container these references stand next to each other where the original stood |
| `PodRewriting.TemplateUsesNamesake` | internal/webhook/webhook.go:585-610 | a reference through a template is rewritten by the mapping of a stored claim that has the name of the template |

## Left out

- Kubernetes clients, informers, leader election, HTTP and TLS serving, health and metrics: plumbing around the model.
- JSON and YAML text, CEL expressions, SHA-256 and label truncation: configs are datatypes, selectors opaque strings, naming functions parameters.
- ConfigMap parsing and validation: rules and groupings enter as datatypes; a rejected ConfigMap changes nothing and is no step.
- Quantity syntax: a capacity is an integer or does not parse; fractional quantities, which the source rounds up, are not modelled.
- Aggregate configs (internal/controller/deviceclass_manager.go:741-864) and the capacity of aggregates, which keeps the last value visited.
- Class contents other than labels: the store maps names to the labels that collection reads; counts, rail labels and configs of published classes are not in it.
- Uniqueness of class names across profiles and nodes: the source shares fixed names such as "full", and names of profiles are hashed; `SoleNameStored` and `RestExact` take names apart as hypothesis.
- Failing API calls during collection: the source logs and goes on, so a class it failed to delete stays until the next sync.
- Partition mode: `Reconcile` is the mode that publishes partitions; in groupings-only mode partition classes are not collected.
- Concurrent writers of DeviceClasses other than the worker, and the memory model of the unsynchronized `synced` flag: steps are sequentially consistent.
- DetectPCIeRootPairings (internal/controller/partition_builder.go:97-167): its groupings enter `MergeGroupings` as a list.
- SmallestPartitionDevices and selectSmallestPartitions (internal/controller/counter_groups.go:177-212): not used by the builders.
- VFIO config injection and VMI rewriting (internal/webhook/webhook.go:246-279, 698-965): substring heuristics on names.
- Lower-casing outside ASCII, and label values after truncation.
- CounterGroups.TotalCounterConsumption: unbounded sum; the wrap-around of 64-bit counter totals is not modelled.
- Allocation.AllocateGroup: an overrun is a slice bound beyond the length of the class list; spare capacity of the backing array, which lets some overruns pass, is not modelled.
- AllocationLaws.RepeatedClassOverruns: the same notion of overrun; without the scarcest class and one count, whether a repeated class overruns is decided by `Fits`.
- GroupingBuilder.FindInstances: the same notion of overrun.
- GroupingBuilder.EvaluateGrouping: the same notion of overrun.
- PartitionConfigs.BuildPartitionConfig: partition mode and the text of selectors are a parameter.
- Aggregates.ExtendState: capacities, of which the source keeps the last one visited, are not modelled.
- Aggregates.AggregateStates: the same.
- Aggregates.Intersect: the same.
- DeviceClasses.DeviceClassManager.PublishEntries: count and rail labels and configs of the classes are not in the store.
- DeviceClasses.DeviceClassManager.SyncDeviceClasses: the same; which older classes survive is stated by `OnlyPublishedIff`.
- DeviceClasses.DeviceClassManager.SyncGroupingDeviceClasses: the same; which instances share a name is stated by `RailNameEqualIff`.
- GroupingClasses.CollectInstances: the number of instances per key, which only feeds a label, is not modelled.
- Tiers.NumaTierIsUnitFraction: arithmetic only; the aggregate is the subject of `NodeTier`.
- Refinement.RuleOrderIrrelevant: a sufficient condition for any permutation; the exact condition for exchanging adjacent rules is `ExchangeIff`.
- CounterSets.CounterSetExclusiveIff: takes as hypothesis that no device outside the counter set has the driver and device name of one of its variants (pools are not part of the identity that the source uses).
- ClaimPatches.ExpandClaim: the operation that injects VFIO configs is not part of the patch.
- RequestNames.InstancesApart: about one request; for a whole claim see `AllNamesUniqueIff`.
- ClaimNames.ClaimNamesUniqueIff: about names that are apart; for all claims see `AllNamesUniqueIff`.
- PodRewriting.PodStaysValid: about references to named claims; references through templates are the subject of `TemplateRefDangles`.
- Reconcile.Quiescence: takes as hypothesis that no slice is added or updated once the first reconcile has read the index and nothing is queued, until `synced` is set; `WindowLosesUpdate` shows what happens otherwise.
- Reconcile.RestExact: takes names apart as hypothesis; without it, `Quiescence` says what is under a shared name.
- RuleConstraints.RuleTies: takes as hypothesis that no class is overridden and that sanitized classes differ; under overrides see `PartitionAlignedIff`.
- RuleConstraints.ConstraintHasRule: the same.
- AdmittedClaims.PartitionRuleAdmitted: the same.
- GroupingFacts.PassPerGroup: about passes that finish; which ones do is stated by `FindInstances`.
- GroupingFacts.RemainingIff: takes as hypothesis that device names contain no "/", by which the source joins driver and device name.
- ClaimLaws.CountConserved: about N instances; how many a request has is stated by `ExpansionCount`.
