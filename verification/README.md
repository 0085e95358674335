# Verification model of the AMD device plugin's allocation core

This project models the parts of the device plugin that decide which compute units (CUs) and which GPUs a Pod gets,
and proves what they promise. `dafny verify dfyconfig.toml` checks all of it.

* **CU slicing.** `Words` and `CuAllocation` hold the in-place first-fit bitmap allocator, `CuList` the ID lists
  (`0-3,8,10-12`) it is printed to and read from, `CuListGrammar` what such lists mean. `Occupancy` and `CuSnapshot` rebuild a node's occupancy from Pod
  annotations, `AllocateCall` is the device loop of one `Allocate` call on the shared bitmaps, `CallSafety` what such
  a call never does. `DeviceAnnotation` and `ContainerCursor` are the to-allocate annotation and the cursor over
  containers, `NodeLock` the lock annotation and its release, `PendingPod` the search for the Pod a call is for, `CommitCall` the persist step.
* **The commit protocol.** `CommitProtocol` is the node as a state machine: scheduler locks, list, snapshot, take, check
  the lock, patch with an ambiguous outcome, read back, release, termination, restart. Its steps use the functions the
  methods above are proved to compute. `CommitSafety` proves, over all runs, that live Pods never share a CU; `LockTiming`
  that each of the three timing conditions behind this is needed.
* **Preferred allocation.** `PairWeights` fills the weight table, `DeviceGroups` and `FilteredGroups` group the GPUs and cut the
  groups down to what is free, `Candidates` is the worklist that enumerates candidate sets, `CandidateFamily` says what it
  enumerates, `SubsetScore` what the incremental score is. `CandidateSubsets`, `RegisteredDevices`, `Selection`, `BestEffort`
  and `Preferred` choose a candidate and map it back to device ids.
* **Health events.** `Health` compares a registration with the last one; `HealthRuns` is about whole runs of registrations.

`Arith`, `Permutation`, `Sorting`, `Text` and `Wrappers` hold arithmetic, list, sorting and string facts.

Objects and buffers the plugin updates in place are arrays and classes here (bitmaps shared by the snapshot map, the node
object, the policy, the reporter); each method is proved against a specification function on plain values, and the
properties are lemmas about those functions.

## Results that are not as plain as the code suggests

* A printed list reads back to its bitmap exactly when the bitmap is not empty: the empty one prints as `0`, which denotes
  CU 0 (`CuList.RoundTrip`, `CuList.EmptyPrintsAsZero`). `Allocate` prints non-empty ones only.
* Encode-then-decode is the identity exactly on non-empty slot lists without separators (`DeviceAnnotation.RoundTrip`).
* The commit-time and the release-time lock owner tests agree on every well-formed lock value, and differ on values with
  extra leading parts (`NodeLock.OwnerTestsAgree`, `NodeLock.TestsDifferOnExtraParts`).
* A preferred allocation has exactly the requested size unless a scored choice has to be made around a must-include id that is
  not registered: such ids are returned in addition (`BestEffort.AllocatedWellFormed` says exactly when,
  `BestEffort.UnknownMustInclude` is an instance).
* A well-formed request can fail for want of registered ids, or because the packing policy starts from a best score of
  2^31-1; the spread policy never fails for the latter reason (`BestEffort.AllocatedFails` says exactly when).
* The check of the lock owner and the annotation patch are two requests, and the patch goes by Pod name. Three timing
  conditions keep the pair safe, and breaking any one of them once is enough to let two live Pods hold the same CUs
  (`LockTiming`).

## Model

| member | source | states |
|---|---|---|
| `CuAllocation.NewAllocation` | internal/pkg/cuallocation/cuallocation.go:21-26 | a new bitmap has one word per 64 CUs and no CU set; refused exactly for a device without CUs |
| `CuAllocation.CountAllocated` | internal/pkg/cuallocation/cuallocation.go:29-35 | the sum of word popcounts is the size of the CU set |
| `CuAllocation.AddAllocation` | internal/pkg/cuallocation/cuallocation.go:40-57 | all-or-nothing disjoint union: fails exactly on a short bitmap or a common CU, and then changes no word |
| `CuAllocation.AllocateN` | internal/pkg/cuallocation/cuallocation.go:67-103 | the in-place bitmap scan is the set-level first fit: fresh delta, bitmap becomes the union; on failure every word is unchanged |
| `CuAllocation.TakeBlocks` | internal/pkg/cuallocation/cuallocation.go:79-94 | the scan collects exactly the first free aligned blocks, and reaches its count exactly if there are enough |
| `CuAllocation.FreeStartsExact` | internal/pkg/cuallocation/cuallocation.go:82-89 | the candidate blocks are all unit-aligned, fully free blocks below totalCUs, ascending |
| `CuAllocation.TakeCusSound` | internal/pkg/cuallocation/cuallocation.go:59-67 | what is taken was free, is not empty, lies on the device and is n rounded up to whole units |
| `CuAllocation.TakeCusCount` | internal/pkg/cuallocation/cuallocation.go:71-101 | the popcount of the bitmap grows by n rounded up to a multiple of a positive unit, and by exactly n otherwise |
| `CuAllocation.TakeCusAligned` | internal/pkg/cuallocation/cuallocation.go:59-61 | every taken CU lies in a stretch from a multiple of the unit that was wholly free and is wholly taken |
| `CuAllocation.TakeCusFirstFit` | internal/pkg/cuallocation/cuallocation.go:82 | no free unit that begins before a taken CU is passed over |
| `CuAllocation.TakeCusFails` | internal/pkg/cuallocation/cuallocation.go:68-98 | refused exactly if n is not positive or all free units together hold fewer than n CUs |
| `CuAllocation.WholeDevice` | internal/pkg/cuallocation/cuallocation.go:67-103 | all CUs of a device are granted exactly when none is taken and the unit divides their number |
| `CuAllocation.SameCusSameBitmap` | internal/pkg/cuallocation/cuallocation.go:10-18 | a CU set has one bitmap of a given length, so set-level results are word-level results |
| `CuList.AllocationToIdList` | internal/pkg/plugin/plugin.go:1659-1698 | the printing loops compute the run text of the bitmap's CUs |
| `CuList.IdListToAllocation` | internal/pkg/plugin/plugin.go:1701-1750 | the parser accepts exactly the valid lists and sets exactly the denoted bits in a bitmap of the device's size |
| `CuList.PrintedIsCanonical` | internal/pkg/plugin/plugin.go:1677-1697 | a printed list consists of ascending maximal runs with gaps between them, and no other such run list denotes the set |
| `CuList.CanonicalUnique` | internal/pkg/plugin/plugin.go:1658-1698 | two canonical run lists of one set are equal |
| `CuList.RoundTrip` | internal/pkg/plugin/plugin.go:1659-1750 | printing then parsing gives the set back if and only if it is not empty |
| `CuList.EmptyPrintsAsZero` | internal/pkg/plugin/plugin.go:1674-1676 | the text of the empty bitmap denotes CU 0 |
| `CuList.Stable` | internal/pkg/plugin/plugin.go:1659-1750 | for every accepted text that names a CU, printing and re-parsing its meaning changes nothing |
| `CuList.ParsedInRange` | internal/pkg/plugin/plugin.go:1728-1744 | an accepted list names no CU at or above totalCUs |
| `CuListGrammar.NumberDenotes` | internal/pkg/plugin/plugin.go:1738-1747 | a number with any blanks around it is that CU if the device has it, else refused; a blank list is empty |
| `CuListGrammar.RangeDenotes` | internal/pkg/plugin/plugin.go:1715-1735 | a range with any blanks around its ends is accepted exactly if it ascends and the device has its end, and is all CUs from one end to the other |
| `CuListGrammar.ListIsUnion` | internal/pkg/plugin/plugin.go:1706-1749 | a comma-separated list is accepted exactly if each part is, and denotes the union |
| `CuListGrammar.DocumentedExample` | internal/pkg/plugin/plugin.go:1658 | the documented "0-3,8,10-12" is what its eight CUs print as, and reads back as them |
| `DeviceAnnotation.EncodeContainerDevices` | internal/pkg/utils/types.go:142-149 | the accumulator loop yields the slot's text |
| `DeviceAnnotation.EncodePodSingleDevice` | internal/pkg/utils/types.go:151-158 | the accumulator loop yields every slot's text with its terminator |
| `DeviceAnnotation.DecodeContainerDevices` | internal/pkg/utils/types.go:83-114 | accepts exactly the slot texts whose comma-holding parts have four fields and 32-bit numbers; the reused record carries nothing over |
| `DeviceAnnotation.DecodePodDevices` | internal/pkg/utils/types.go:116-140 | decodes slot by slot, keeping empty slots; a missing annotation is an empty result, one bad slot fails the whole |
| `DeviceAnnotation.RoundTrip` | internal/pkg/utils/types.go:83-158 | encode-then-decode is the identity if and only if there is a slot and no field holds a separator |
| `DeviceAnnotation.DecodedIsEncodable` | internal/pkg/utils/types.go:91-109 | whatever string was decoded, the result holds no separator in any field |
| `DeviceAnnotation.Stable` | internal/pkg/utils/types.go:83-158 | for every accepted string, decoding the encoding of its result gives the same slots |
| `DeviceAnnotation.DeviceFormat` | internal/pkg/utils/types.go:89-111 | the fields of a device are UUID, type, memory, cores in this order, further ones ignored; too few fields or no 32-bit numbers refuse the annotation, a text without comma is skipped |
| `ContainerCursor.GetNextDeviceRequest` | internal/pkg/utils/utils.go:271-300 | returns the first non-empty slot with its devices and its entry of the init containers followed by the app containers; fails exactly if the annotation does not decode, all slots are empty, or there is no such entry |
| `ContainerCursor.EraseNextDeviceTypeFromAnnotation` | internal/pkg/utils/utils.go:302-329 | the stored annotation becomes the encoded slots with the first non-empty one emptied exactly if the copy decodes and the patch is applied; success exactly if it decodes and the patch reports no error |
| `ContainerCursor.PodAllocationTrySuccess` | internal/pkg/utils/utils.go:228-249 | releases exactly when the Pod can be read again, its annotation is gone or decodes, and every slot is empty |
| `ContainerCursor.FullSlotsExact` | internal/pkg/utils/utils.go:284-287 | the served slots are all non-empty ones in ascending order |
| `ContainerCursor.EraseFirstKeepsRest` | internal/pkg/utils/utils.go:312-324 | erasing drops the very slot get-next picks and keeps the slot count and all other slots |
| `ContainerCursor.ServedOnceInOrder` | internal/pkg/utils/utils.go:228-329 | over a run of calls through the encoded string, request k of a Pod is for its k-th non-empty slot and that entry of the init containers followed by the app containers; the lock is released at the last one and never earlier, and then there is no further request |
| `NodeLock.SuffixIsLastTwoParts` | internal/pkg/utils/nodelocks.go:124 | the release test accepts exactly the values whose last two of at least three comma-separated parts name the Pod |
| `NodeLock.LockForms` | internal/pkg/utils/nodelocks.go:143-154 | a lock is a bare time without owner, or time, namespace and name; no other number of parts is one |
| `NodeLock.OwnerTestsAgree` | internal/pkg/plugin/plugin.go:1514-1531 | on every value the commit test accepts exactly if the release test does and the value has three parts with a readable time |
| `NodeLock.WellFormedLock` | internal/pkg/utils/nodelocks.go:143-160 | on comma-free time, namespace and name both tests say whether the lock names this Pod |
| `NodeLock.TestsDifferOnExtraParts` | internal/pkg/utils/nodelocks.go:120-127 | a value with extra leading parts passes the release test and never the commit test |
| `NodeLock.TryRelease` | internal/pkg/utils/nodelocks.go:114-136 | one read-check-patch attempt, with other writers in between, removes own locks only |
| `NodeLock.ReleaseNodeLock` | internal/pkg/utils/nodelocks.go:99-141 | over up to five attempts no lock of another Pod is ever removed; success leaves no own lock, and none at all without the owner check; failure means five disturbed attempts |
| `NodeLock.ForeignLockSurvives` | internal/pkg/utils/nodelocks.go:109-136 | in any such history a lock naming another Pod only goes away by another writer's doing |
| `PendingPod.GetAllocatePodByNode` | internal/pkg/utils/utils.go:99-122 | returns the Pod a readable lock names, if it exists; a lock that is a bare time has no owner; fails exactly when the node, the lock or that Pod cannot be read |
| `PendingPod.GetPendingPod` | internal/pkg/utils/utils.go:65-97 | the lock owner comes first; only without one the first listed Pod that is pending, bound and marked as allocating on the node; none exactly if there is neither |
| `PendingPod.PendingIsProtocol` | internal/pkg/plugin/plugin.go:1094-1111 | the Pod it returns is one the protocol lets a call start for |
| `DeviceCache.AnswersExactly` | internal/pkg/plugin/plugin.go:1602-1612 | a device answers to its id, and to every split id that begins with its PCI address and "#" |
| `DeviceCache.LookupDevice` | internal/pkg/plugin/plugin.go:1598-1615 | finds the first cached device that answers to the id, none exactly if there is none |
| `CuSnapshot.ParseCuAllocation` | internal/pkg/plugin/plugin.go:1757-1788 | for every map order: accepts exactly the annotations whose entries all decode, with separate bitmaps holding the listed CUs |
| `CuSnapshot.Overlaps` | internal/pkg/plugin/plugin.go:1484-1494 | the CU-by-CU scan finds an overlap exactly if there is a common CU |
| `CuSnapshot.AddPod` | internal/pkg/plugin/plugin.go:1469-1508 | adds all devices of a Pod, in any map order, exactly if it meets nothing already held |
| `CuSnapshot.BuildCuAllocations` | internal/pkg/plugin/plugin.go:1451-1512 | succeeds if and only if all live annotations decode and live Pods are pairwise disjoint; no live Pod then has a malformed or unreadable one, and the bitmaps hold their union |
| `Occupancy.DecodesExactly` | internal/pkg/plugin/plugin.go:1457-1467 | the Pods decode exactly if every live one has no annotation, or one that lists, for at least one device, CUs of registered devices only: the rebuild fails closed |
| `Occupancy.DisjointMeansOneHolder` | internal/pkg/plugin/plugin.go:1449-1450 | pairwise disjointness means that no CU has two holders |
| `Occupancy.UnionSize` | internal/pkg/plugin/plugin.go:1496-1500 | the rebuilt device holds exactly as many CUs as the Pods together |
| `Occupancy.OrderIrrelevant` | internal/pkg/plugin/plugin.go:1455-1509 | for every reordering of the Pod list: the same annotations decode, the same overlap verdict, the same union |
| `AllocateCall.TakeExclusive` | internal/pkg/plugin/plugin.go:1238 | allocating through the bitmap kept in the snapshot is seen by the snapshot, although the returned bitmap is dropped |
| `AllocateCall.GrantDevice` | internal/pkg/plugin/plugin.go:1212-1242 | a device gets its own CUs, all of them for a whole GPU and none for a memory-only slice; no other device's occupancy changes |
| `AllocateCall.RecordShare` | internal/pkg/plugin/plugin.go:1249-1263 | the recorded list is the new share merged with the share the Pod already has |
| `AllocateCall.AllocateDevices` | internal/pkg/plugin/plugin.go:1209-1265 | the whole device loop on any snapshot: bitmaps, recorded lists and mask variable are those of serving the requests one after another; it is sliced exactly if some device is cut in cores or memory |
| `AllocateCall.SlicedExactly` | internal/pkg/plugin/plugin.go:1536-1547 | a served call is sliced exactly if one of its requests takes some but not all cores, or some but not all memory, of its device |
| `AllocateCall.GrantSound` | internal/pkg/plugin/plugin.go:1226-1242 | exclusive CUs were free, are not empty and lie on the device; only a memory-only slice shares |
| `AllocateCall.GrantFails` | internal/pkg/plugin/plugin.go:1212-1242 | a request is refused exactly if its device is not registered with CUs, it is negative, or the free units hold too few CUs; a memory-only slice needs none |
| `CallSafety.TakingsDisjoint` | internal/pkg/plugin/plugin.go:1211-1264 | two requests of one call for the same device never get a common CU |
| `CallSafety.GrantsDisjoint` | internal/pkg/plugin/plugin.go:1211-1264 | what a call takes was free before it and is as much as its rounded requests |
| `CallSafety.RecordingNeverFails` | internal/pkg/plugin/plugin.go:1249-1263 | for a Pod whose share is in the snapshot, decoding and merging the old list never fail; the call fails only for want of a device or of CUs |
| `CallSafety.ListGrowsByRequests` | internal/pkg/plugin/plugin.go:1209-1265 | the recorded share of each device grows by exactly the sum of the rounded requests |
| `CallSafety.ProcessKeeps` | internal/pkg/plugin/plugin.go:1238-1263 | the list after a call denotes the old share plus exactly what was handed out, also for a Pod whose old share has left the occupancy |
| `CallSafety.SliceIsPersisted` | internal/pkg/plugin/plugin.go:1248-1351 | a call that took CUs of its own on a device it cuts in cores or memory has a list to persist and the sliced flag set |
| `CallSafety.MaskDenotesGrant` | internal/pkg/plugin/plugin.go:1228-1246 | part i of the mask parses back to index i and exactly the CUs of grant i |
| `CallSafety.MaskSplits` | internal/pkg/plugin/plugin.go:1265 | the joined variable splits at its separators into exactly these parts |
| `CommitCall.CommitSlices` | internal/pkg/plugin/plugin.go:1349-1375 | success only for the lock owner and with the list stored; an applied patch that can be read back is a success whatever it reported; failure leaves the old or the new list; nothing else is touched |
| `CommitCall.ApiServer.HasPersistedCUAllocation` | internal/pkg/plugin/plugin.go:1628-1634 | answers exactly when the Pod can be read, and says whether the expected list is stored |
| `CommitCall.CommitIsProtocol` | internal/pkg/plugin/plugin.go:1349-1375 | the persist step has the outcome and the effect of the protocol's check, patch and read-back steps |
| `CommitSafety.InvAlways` | internal/pkg/plugin/plugin.go:1117-1125 | the protocol's invariant holds after every legal run: re-used Pod names, repeated locks and a lock lost during a call included |
| `CommitSafety.Isolation` | internal/pkg/plugin/plugin.go:1349-1375 | in every reachable state the persisted CU sets of live Pods are disjoint per device and below the device's registered number of CUs |
| `CommitSafety.RebuildNeverFails` | internal/pkg/plugin/plugin.go:1440-1512 | in no reachable state, under no listing order, does the rebuild report an error or an overlap |
| `CommitSafety.SnapshotStaysCurrent` | internal/pkg/plugin/plugin.go:1117-1125 | while a Pod owns the lock, its call's snapshot covers every live Pod, however the node changed since |
| `CommitSafety.SuccessIsDurable` | internal/pkg/plugin/plugin.go:1347-1375 | a call that handed out CUs of a device it cuts in cores or memory reports success only with an annotation stored that holds all CUs it handed out; one that cuts no device stores nothing; a failed call leaves the old annotation or the one it tried |
| `CommitSafety.MaskIsIsolated` | internal/pkg/plugin/plugin.go:1209-1375 | end to end: the CUs in the answered mask of a successful call of a live Pod that cuts a device in cores or memory are held by no other live Pod |
| `CommitSafety.PhaseIsTrue` | internal/pkg/utils/utils.go:251-269 | over all runs, a Pod is marked as bound only if the last of its calls succeeded, and as failed only if one of its calls failed |
| `LockTiming.ExpiryBreaks` | internal/pkg/plugin/plugin.go:1355-1359 | for every request for a slice: losing the lock between check and patch lets two live Pods hold the same CUs, all else on time |
| `LockTiming.SecondLockBreaks` | internal/pkg/plugin/plugin.go:1355-1359 | so does granting the lock again to a Pod whose call lost it before its check, which the owner check accepts |
| `LockTiming.ArrivalBreaks` | internal/pkg/utils/utils.go:192-220 | so does a new Pod of the same name while a call of the old one is in flight, because patches go by name |
| `LockTiming.Instance` | internal/pkg/plugin/plugin.go:1211-1264 | there is a device and a slice request of the kind these three runs start from |
| `PairWeights.CalculatePairWeight` | internal/pkg/allocator/device.go:129-150 | a pair weight lies in 30..90 |
| `PairWeights.PairWeightSteps` | internal/pkg/allocator/device.go:37-54 | it is 30 for one GPU, one NUMA node and an XGMI link, and grows by 30 for PCIe, 10 more for another link, 10 for another GPU and 10 for another NUMA node, independently of each other and of the direction |
| `PairWeights.ScanAndPopulatePeerWeights` | internal/pkg/allocator/device.go:152-205 | the link scan leaves the table the links in order lead to |
| `PairWeights.LastLinkWins` | internal/pkg/allocator/device.go:182-203 | of several links between two nodes the last one scanned decides |
| `PairWeights.EndsExact` | internal/pkg/allocator/device.go:184-198 | the two devices a link is weighed by are the last ones on its nodes among the fewest first devices that have both |
| `PairWeights.FillHostPaths` | internal/pkg/allocator/device.go:234-250 | every pair of registered nodes without an entry gets a host-path weight; scanned entries are kept, and no other entry appears |
| `PairWeights.FetchAllPairWeights` | internal/pkg/allocator/device.go:207-252 | fails exactly without devices, and otherwise completes the scanned table |
| `PairWeights.TotalAndBounded` | internal/pkg/allocator/device.go:207-252 | every two distinct registered nodes have a weight, and all weights lie in 30..90 |
| `PairWeights.HostPathIsCostliest` | internal/pkg/allocator/device.go:231-249 | a pair no link joins weighs as much as two such devices with the worst link |
| `PairWeights.EmptyMeansOneNode` | internal/pkg/allocator/besteffort_policy.go:134-135 | without self-links the table is empty if and only if all devices share one node |
| `DeviceGroups.GroupPartitionsByDevId` | internal/pkg/allocator/device.go:287-305 | one group per GPU, with its nodes and ids in device order, named after its last device whose id does not hold "amdgpu_xcp" |
| `DeviceGroups.NodesOfAdd` | internal/pkg/allocator/device.go:301-302 | the groups split the registered nodes: each GPU contributes exactly its own |
| `DeviceGroups.FilterPartitions` | internal/pkg/allocator/device.go:311-349 | for every map order: ascending, non-empty groups that keep of each node the lesser of what is registered and what is available beyond the required; fewest ids first, then the smaller name |
| `FilteredGroups.Conserved` | internal/pkg/allocator/device.go:307-327 | for required within available within registered, exactly available minus required is kept, node by node and in total |
| `FilteredGroups.GroupExact` | internal/pkg/allocator/device.go:320-327 | over disjoint nodes this holds group by group |
| `FilteredGroups.PrefixIsLowest` | internal/pkg/allocator/device.go:327-331 | the first ids of a group are its lowest |
| `FilteredGroups.OrderIrrelevant` | internal/pkg/allocator/device.go:320-348 | with distinct parents and disjoint nodes the result is the same for every map order and every way to break sort ties |
| `Candidates.AddDeviceToSubsetAndUpdateWeight` | internal/pkg/allocator/device.go:254-273 | appends the id and adds the sum of the table's entries of its pairs with every id already there |
| `Candidates.CompleteWith` | internal/pkg/allocator/device.go:423-438 | one group either completes the set with its lowest ids and the required ones, or is added whole; the weight stays the pair sum |
| `Candidates.Extensions` | internal/pkg/allocator/device.go:412-421 | the skip rule lets through exactly the partial sets and completions of the index-ordered form |
| `Candidates.PotentialPop` | internal/pkg/allocator/device.go:405-407 | a popped entry gives back its share 2^(N-1-LastIdx) of the termination measure |
| `Candidates.ExtendSubset` | internal/pkg/allocator/device.go:414-440 | everything built from one entry is listed once, and the pushed entries together count less than that entry did |
| `Candidates.EnumerateSubsets` | internal/pkg/allocator/device.go:360-441 | the worklist terminates with every completion exactly once, in order of GPU count and then of index, and with nothing for a size already met |
| `CandidateFamily.MemberIsBuilt` | internal/pkg/allocator/device.go:417-421 | every choice of whole groups and one completing group has its ids built, in index order if all are used up |
| `CandidateFamily.CompletionsDiffer` | internal/pkg/allocator/device.go:417-418 | over disjoint groups two different completions never choose the same ids |
| `CandidateFamily.SomeCompletion` | internal/pkg/allocator/device.go:367-440 | if the groups hold enough ids, some completion exists |
| `CandidateFamily.EnumerationExact` | internal/pkg/allocator/device.go:351-442 | the candidates are exactly the family: whole groups falling short, the lowest ids of one more, the required ids; each once, scored by its pair sum |
| `CandidateFamily.EnumerationUnique` | internal/pkg/allocator/device.go:410-440 | the groups determine the candidates, their order, ids and scores: no run returns another list |
| `SubsetScore.PairSumPermute` | internal/pkg/allocator/device.go:254-273 | the score does not depend on the order in which ids were added |
| `SubsetScore.ScoreOnTable` | internal/pkg/allocator/device.go:254-269 | the score is the sum over all positions i < j of the table's entry under the smaller id and the larger one, zero without one |
| `SubsetScore.PairScore` | internal/pkg/allocator/device.go:254-269 | two ids score the table's entry of their pair, in either order |
| `SubsetScore.PairSumBound` | internal/pkg/allocator/device.go:39-54 | n ids score between 0 and 90·n(n-1)/2 |
| `CandidateSubsets.GetCandidateDeviceSubsets` | internal/pkg/allocator/device.go:351-442 | refuses exactly bad sizes; otherwise reorders the available devices only and returns the exact family over the filtered groups, in order, every candidate scored by the sum of its table entries, and without two equal ones when GPUs have nodes of their own |
| `CandidateSubsets.CandidatesDiffer` | internal/pkg/allocator/device.go:417-421 | for devices whose GPUs have nodes of their own, any two candidates have different id multisets |
| `CandidateSubsets.ChooseCandidate` | internal/pkg/allocator/besteffort_policy.go:152-169 | the first of the least-scored candidates when packing, of the greatest-scored when spreading; none exactly if none is below 2147483647, or above -2147483648 |
| `CandidateSubsets.TieBreak` | internal/pkg/allocator/device.go:410-413 | of equally scored candidates the one of fewest groups is chosen, then the one of lowest group indices |
| `CandidateSubsets.CountNeed` | internal/pkg/allocator/besteffort_policy.go:172-178 | the need of each node is what the candidate holds beyond the required devices |
| `CandidateSubsets.PickDevices` | internal/pkg/allocator/besteffort_policy.go:179-185 | must-include ids first, then as many free devices of each node as needed, or all |
| `RegisteredDevices.GetDevicesFromIds` | internal/pkg/allocator/besteffort_policy.go:72-83 | keeps the registered ids in order and drops the others |
| `RegisteredDevices.FreeAndRequired` | internal/pkg/allocator/besteffort_policy.go:149-151 | for a well-formed request the available nodes are those of the free and of the required devices |
| `Selection.BoundOnFamily` | internal/pkg/allocator/besteffort_policy.go:161-166 | a score bound holds for all candidates if and only if it holds for the whole family |
| `Selection.ChosenAnswers` | internal/pkg/allocator/besteffort_policy.go:156-187 | the answer is the must-include ids and devices for a member no other member of the family scores better than |
| `Selection.AnswerIsBest` | internal/pkg/allocator/besteffort_policy.go:156-166 | over the whole family, the sum of the answer's table entries is least when packing and greatest when spreading |
| `Selection.ClosestPair` | internal/pkg/allocator/besteffort_policy.go:33-34 | of two devices on different nodes, packing takes the pair with the least table entry and spreading the one with the greatest |
| `Selection.LowestFirst` | internal/pkg/allocator/device.go:327-331 | of every GPU a node is taken only together with all free devices of its lower nodes |
| `Selection.AnswerAvoidsFragmentation` | internal/pkg/allocator/device.go:410-413 | the answer's candidate takes, against any other of the same score, fewer GPUs, or at the first difference a GPU with no more free devices |
| `Selection.FamilyNotEmpty` | internal/pkg/allocator/device.go:356-358 | with enough registered ids on offer there is a candidate |
| `Selection.AnswerWellFormed` | internal/pkg/allocator/besteffort_policy.go:170-187 | the answer has distinct available ids, every must-include id, and the candidate's number of further ones |
| `BestEffort.SetContainsAll` | internal/pkg/allocator/device.go:82-99 | true exactly if the second list is no longer and all its elements occur in the first |
| `BestEffort.FillUp` | internal/pkg/allocator/besteffort_policy.go:135-147 | without weights: must-include ids, then the first other available ones up to the size |
| `BestEffort.FillTakesFirst` | internal/pkg/allocator/besteffort_policy.go:138-145 | filling up passes over no available id that comes before one it takes |
| `BestEffort.BestEffortPolicy.Init` | internal/pkg/allocator/besteffort_policy.go:86-99 | without devices nothing changes; otherwise tables, groups and weights are those of the devices, and the policy is ready after every call, repeated ones with other devices included |
| `BestEffort.BestEffortPolicy.AllocateScored` | internal/pkg/allocator/besteffort_policy.go:149-187 | answers from a best family member, or fails exactly for want of registered ids or of a score better than the start |
| `BestEffort.BestEffortPolicy.Allocate` | internal/pkg/allocator/besteffort_policy.go:101-188 | just enough available ids, or a full set of must-include ids, are answered as they are; else a fill-up or a best-scored choice; bad sizes, foreign must-include ids and a policy without devices are refused |
| `BestEffort.AllocatedWellFormed` | internal/pkg/allocator/besteffort_policy.go:101-188 | a successful answer is exactly size distinct available ids with every must-include id if and only if no score was needed or all must-include ids are registered |
| `BestEffort.AllocatedFails` | internal/pkg/allocator/besteffort_policy.go:101-188 | a well-formed request fails if and only if the policy has no devices, or a scored choice has fewer registered ids than the size or no score low enough; the last cannot happen below the score bound nor when spreading, if no id on offer belongs to a device that has left |
| `BestEffort.UnknownMustInclude` | internal/pkg/allocator/besteffort_policy.go:149-187 | an instance: three ids are answered for two |
| `Preferred.EchoPreferred` | internal/pkg/plugin/plugin.go:967-980 | the first size distinct ids, must-include ones first; no answer exactly for a negative size |
| `Preferred.EchoIsFillUp` | internal/pkg/plugin/plugin.go:966-980 | on lists without repetition the echo is the fill-up of the policy without weights |
| `Preferred.EchoWellFormed` | internal/pkg/plugin/plugin.go:966-980 | the echo answers every well-formed request with size ids |
| `Preferred.GetPreferredAllocation` | internal/pkg/plugin/plugin.go:948-964 | one answer per container request: the policy's, or the echo when the policy fails; none at all exactly if a size is negative |
| `Preferred.PreferredWellFormed` | internal/pkg/plugin/plugin.go:948-980 | with registered must-include ids every well-formed request gets size distinct available ids including them, also when the policy fails |
| `Sorting.StringLessExact` | internal/pkg/plugin/health_events.go:68 | ids, and GPU names, are ordered by their first difference, a proper prefix coming first |
| `Health.HealthTransitions` | internal/pkg/plugin/health_events.go:45-90 | a registered GPU is remembered as healthy exactly if its last entry says so, at that place, one that left as missing at its old place; the first call is silent; later events are in id order, for every map order, and each is true of the registration and news: unhealthy only with the flag false, recovered only with it true, missing only when not registered |
| `Health.Reporter.ReportHealthChanges` | internal/pkg/plugin/plugin.go:1874-1883 | the plugin's state goes from registration to registration this way, and every event reported is true news |
| `HealthRuns.OneEventPerChange` | internal/pkg/plugin/health_events.go:67-88 | a registration has at most one event about a GPU: one exactly if its state changes, announcing the new state |
| `HealthRuns.NeverForgotten` | internal/pkg/plugin/health_events.go:72-79 | a GPU once seen is remembered for the rest of the run |
| `HealthRuns.ReplayIsCurrent` | internal/pkg/plugin/health_events.go:41-90 | replaying the whole log over the baseline gives the current state of every GPU |
| `HealthRuns.ReasonsAlternate` | internal/pkg/plugin/health_events.go:70-87 | consecutive events about a GPU never carry the same reason |
| `HealthRuns.FirstEventIsNews` | internal/pkg/plugin/health_events.go:41-44 | the first event about a GPU differs from what the baseline said, so a restart reports nothing already known |

## Left out

Assumptions of the protocol (`CommitProtocol.Timely`, each shown necessary in `LockTiming`):

- The lock is not lost between a call's owner check and its patch; at any other time it may be.
- The lock is not granted to a Pod while a call of that Pod is in flight.
- No new Pod of a name arrives while a call of the old Pod of that name is in flight.

Assumptions built into its actions (`CommitProtocol.Possible`, `CommitProtocol.Next`):

- One `Allocate` call per Pod at a time, with one container request; a call starts for the lock owner, or for a Pod marked as allocating when no lock owner exists.
- A patch that is applied is applied before its error is seen, not later.
- The CU annotation is written by the plugin only and is absent when a Pod arrives; no device is registered under the empty UUID; device totals are fixed over a run.
- Occupancy is per device UUID; a Pod of whole GPUs only persists nothing, so isolation is claimed for persisted sets.

Modelled differently from the code:

- The JSON of the CU annotation is a map from UUID to list text; a text that is no such JSON is one malformed value.
- Strings are sequences of characters; whitespace is ASCII; `time.Parse` is a predicate parameter; error texts, log lines and the owner names in overlap errors are dropped.
- Only the registered device type `amd` of the to-allocate annotation is modelled.
- Bitmap words are numbers below 2^64 with their own bitwise operations; counters and request sizes are unbounded, so Go integer overflow is not modelled.
- `sort.Slice` and `sort.Strings` are one sorting method on values with the library's guarantee; only the array of available devices is sorted in place.
- The nested weight map is one map keyed by node pair; topology files are a given sequence of links, one scan list for all nodes.
- Map iteration is an arbitrary order chosen step by step.
- Preferred.EchoPreferred: the run-time panic of Go's `make` on a negative capacity is an answer of its own, None; what the server does with the panic is not modelled.
- BestEffort.AllocatedFails: the exact condition is stated for GPUs with nodes and parents of their own; otherwise the groups, and with them the verdict, may depend on map order, and the contract of `BestEffortPolicy.AllocateScored` says it for the groups of the call.
- NodeLock.ReleaseNodeLock: the per-node mutex of the process and the retry delays are not modelled; any other writer may act between a read and its patch.

Not modelled:

- The scheduler beyond its lock and bind-phase steps; untracked Pods; the kubelet fallback to whole GPUs when the to-allocate annotation is unusable.
- sysfs, KFD, AMD SMI and cgroup access, environment variables other than the CU mask, CDI files, device nodes, gRPC, metrics.
- Mode-change warnings and emitting events to the API server: single branches around I/O.
- Global optimality of the chosen GPUs: the code optimises within its candidate family, and so does the claim.
