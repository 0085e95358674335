/** From the devices on offer to the best-scored set of node ids, and back to device ids. */
module CandidateSubsets {
  import opened CandidateFamily
  import opened Candidates
  import opened DeviceGroups
  import opened FilteredGroups
  import opened PairWeights
  import opened Permutation
  import opened Sorting
  import opened SubsetScore
  import opened Wrappers

  const MAX_INT32 := 2147483647
  const MIN_INT32 := -2147483648

  function NodeIds(devs: seq<Device>): seq<int> {
    if devs == [] then [] else NodeIds(devs[..|devs| - 1]) + [devs[|devs| - 1].nodeId]
  }

  lemma {:induction false} NodeIdsNodes(devs: seq<Device>)
    ensures multiset(NodeIds(devs)) == Nodes(devs) && |NodeIds(devs)| == |devs|
  {
    if devs != [] { NodeIdsNodes(devs[..|devs| - 1]); }
  }

  predicate NodeLess(a: Device, b: Device) {
    a.nodeId < b.nodeId
  }

  method SortByNode(available: array<Device>)
    modifies available
    ensures multiset(available[..]) == multiset(old(available[..])) && Ordered(available[..], NodeLess)
  {
    assert StrictOrder(NodeLess);
    var sorted := Sort(available[..], NodeLess);
    assert |multiset(sorted)| == |sorted|;
    forall i | 0 <= i < available.Length { available[i] := sorted[i]; }
    assert available[..] == sorted;
  }

  /** No two candidates have the same ids. */
  ghost predicate AllDiffer(all: seq<DeviceSet>) {
    forall i, j :: 0 <= i < j < |all| ==> multiset(all[i].ids) != multiset(all[j].ids)
  }

  /** Over devices whose GPUs have nodes of their own, every candidate is another set of ids. */
  lemma CandidatesDiffer(devs: seq<Device>, available: seq<Device>, required: seq<Device>, groups: seq<DevicePartitions>,
                         weights: Weights, newSize: int, all: seq<DeviceSet>)
    requires DisjointNodes(devs) && Filtered(devs, available, required, groups)
    requires Exact(IdsOf(groups), weights, NodeIds(required), newSize, all)
    ensures AllDiffer(all)
  {
    hide DisjointNodes, GroupEntries, Ordered, DisjointGroups, InFamily, Member, MemberIds, NodeIds, IdsOf;
    FilteredDisjoint(devs, Gpus(devs), groups);
  }

  /** The score of every candidate is the sum of the table's entries of its pairs. */
  ghost predicate ScoredOnTable(weights: Weights, all: seq<DeviceSet>) {
    forall k :: 0 <= k < |all| ==> all[k].totalWeight == TableSum(weights, all[k].ids)
  }

  lemma ExactOnTable(groups: Groups, weights: Weights, required: seq<int>, newSize: int, all: seq<DeviceSet>)
    requires Exact(groups, weights, required, newSize, all)
    ensures ScoredOnTable(weights, all)
  {
    hide PairSum, TableSum, Member, MemberIds;
    forall k | 0 <= k < |all| ensures all[k].totalWeight == TableSum(weights, all[k].ids) {
      assert InFamily(groups, weights, required, newSize, all[k]);
      ScoreOnTable(weights, all[k].ids);
    }
  }

  method GetCandidateDeviceSubsets(ghost devs: seq<Device>, partitions: PartitionMap, available: array<Device>,
                                   required: seq<Device>, size: int, weights: Weights)
    returns (r: Result<seq<DeviceSet>>, ghost groups: seq<DevicePartitions>)
    requires Grouped(devs, partitions)
    modifies available
    ensures multiset(available[..]) == multiset(old(available[..]))
    ensures r.Failure? <==> size <= 0 || available.Length < size
    ensures r.Success? ==> Filtered(devs, available[..], required, groups)
    ensures r.Success? && size > |required| ==>
      Enumerates(IdsOf(groups), weights, NodeIds(required), size - |required|, r.value)
    ensures r.Success? && size > |required| ==> Exact(IdsOf(groups), weights, NodeIds(required), size - |required|, r.value)
    ensures r.Success? && size > |required| && DisjointNodes(devs) ==> AllDiffer(r.value)
    ensures r.Success? ==> ScoredOnTable(weights, r.value)
    ensures r.Success? && size <= |required| ==> r.value == []
  {
    hide DisjointNodes, AllDiffer, Grouped, Filtered, Exact, Enumerates, NodeIds, TableSum;
    groups := [];
    if size <= 0 { return Failure("subset size should be positive integer"), groups; }
    if available.Length < size { return Failure("subset size is more than available devices"), groups; }
    SortByNode(available);
    var devPartitions := FilterPartitions(devs, partitions, available[..], required);
    groups := devPartitions;
    GroupsReady(devs, available[..], required, groups);
    var subsetsFinal := EnumerateSubsets(IdsOf(devPartitions), weights, NodeIds(required), size - |required|);
    if size > |required| {
      EnumerationExact(IdsOf(groups), weights, NodeIds(required), size - |required|, subsetsFinal);
      ExactOnTable(IdsOf(groups), weights, NodeIds(required), size - |required|, subsetsFinal);
      if DisjointNodes(devs) {
        CandidatesDiffer(devs, available[..], required, groups, weights, size - |required|, subsetsFinal);
      }
    }
    return Success(subsetsFinal), groups;
  }

  lemma GroupsReady(devs: seq<Device>, available: seq<Device>, required: seq<Device>, groups: seq<DevicePartitions>)
    requires Filtered(devs, available, required, groups)
    ensures NonEmpty(IdsOf(groups))
  {
    hide GroupEntries, Ordered;
    FilteredNonEmpty(devs, Gpus(devs), groups);
  }

  // ---------- choosing ----------

  predicate Better(spread: bool, a: int, b: int) {
    if spread then a > b else a < b
  }

  function StartScore(spread: bool): int {
    if spread then MIN_INT32 else MAX_INT32
  }

  ghost predicate FirstBestAt(all: seq<DeviceSet>, spread: bool, k: nat) {
    && k < |all|
    && (forall j :: 0 <= j < |all| ==> !Better(spread, all[j].totalWeight, all[k].totalWeight))
    && (forall j :: 0 <= j < k ==> Better(spread, all[k].totalWeight, all[j].totalWeight))
  }

  ghost predicate FirstBest(all: seq<DeviceSet>, spread: bool, c: DeviceSet) {
    exists k: nat :: FirstBestAt(all, spread, k) && c == all[k]
  }

  /** No candidate scores above score when spreading, or below it when packing. */
  ghost predicate BoundedBy(all: seq<DeviceSet>, spread: bool, score: int) {
    forall k :: 0 <= k < |all| ==> if spread then all[k].totalWeight <= score else all[k].totalWeight >= score
  }

  /** The first of the best-scored candidates, if any beats the starting score. */
  method ChooseCandidate(all: seq<DeviceSet>, spread: bool) returns (candidate: Option<DeviceSet>)
    ensures candidate.None? <==> forall k :: 0 <= k < |all| ==> !Better(spread, all[k].totalWeight, StartScore(spread))
    ensures candidate.Some? ==> FirstBest(all, spread, candidate.value)
    ensures candidate.None? <==> BoundedBy(all, spread, if spread then -2147483648 else 2147483647)
    ensures candidate.Some? ==> BoundedBy(all, spread, candidate.value.totalWeight)
  {
    var bestScore := StartScore(spread);
    candidate := None;
    ghost var at := 0;
    for i := 0 to |all|
      invariant candidate.None? ==> bestScore == StartScore(spread)
      invariant candidate.Some? ==> 0 <= at < i && candidate.value == all[at] && bestScore == all[at].totalWeight
      invariant candidate.Some? ==> Better(spread, bestScore, StartScore(spread))
      invariant forall j :: 0 <= j < i ==> !Better(spread, all[j].totalWeight, bestScore)
      invariant candidate.Some? ==> forall j :: 0 <= j < at ==> Better(spread, bestScore, all[j].totalWeight)
    {
      var subset := all[i];
      if (!spread && subset.totalWeight < bestScore) || (spread && subset.totalWeight > bestScore) {
        candidate := Some(subset);
        bestScore := subset.totalWeight;
        at := i;
      }
    }
    if candidate.Some? { assert FirstBestAt(all, spread, at); }
  }

  /** Of several best-scored candidates the one of fewest GPUs is chosen, then the one of GPUs with fewest free devices. */
  lemma TieBreak(all: seq<DeviceSet>, spread: bool, c: DeviceSet, other: nat)
    requires InOrder(all) && FirstBest(all, spread, c) && other < |all| && all[other].totalWeight == c.totalWeight
    ensures all[other] == c || Before(c.parentIds, all[other].parentIds)
  {
    hide Before;
    var k: nat :| FirstBestAt(all, spread, k) && c == all[k];
  }

  // ---------- back to device ids ----------

  function DeviceIds(devs: seq<Device>): seq<string> {
    seq(|devs|, i requires 0 <= i < |devs| => devs[i].id)
  }

  /** The devices that are not must-include ones. */
  function Free(available: seq<Device>, requiredIds: seq<string>): (r: seq<Device>) {
    if available == [] then []
    else
      var d := available[|available| - 1];
      Free(available[..|available| - 1], requiredIds) + (if d.id in requiredIds then [] else [d])
  }

  /** Of the free devices of node x as many are picked as are needed, or all. */
  ghost predicate PickedAt(free: seq<Device>, need: map<int, int>, picks: seq<Device>, left: map<int, int>, x: int) {
    Nodes(picks)[x] == Min(Nodes(free)[x], Quota(Left(need, x))) && Left(left, x) == Left(need, x) - Nodes(picks)[x]
  }

  ghost predicate Picked(free: seq<Device>, need: map<int, int>, picks: seq<Device>, left: map<int, int>) {
    && (forall x :: PickedAt(free, need, picks, left, x))
    && multiset(picks) <= multiset(free)
  }

  lemma NodesPush(devs: seq<Device>, d: Device)
    ensures Nodes(devs + [d]) == Nodes(devs) + multiset{d.nodeId}
  {
    assert (devs + [d])[..|devs|] == devs;
  }

  lemma PickTake(free: seq<Device>, need: map<int, int>, picks: seq<Device>, left: map<int, int>, d: Device)
    requires Picked(free, need, picks, left) && Left(left, d.nodeId) > 0
    ensures Picked(free + [d], need, picks + [d], left[d.nodeId := Left(left, d.nodeId) - 1])
  {
    NodesPush(free, d);
    NodesPush(picks, d);
    hide Nodes;
    var free', picks', left' := free + [d], picks + [d], left[d.nodeId := Left(left, d.nodeId) - 1];
    forall x ensures PickedAt(free', need, picks', left', x) {
      assert PickedAt(free, need, picks, left, x);
    }
  }

  lemma PickPass(free: seq<Device>, need: map<int, int>, picks: seq<Device>, left: map<int, int>, d: Device)
    requires Picked(free, need, picks, left) && Left(left, d.nodeId) <= 0
    ensures Picked(free + [d], need, picks, left)
  {
    NodesPush(free, d);
    hide Nodes;
    var free' := free + [d];
    forall x ensures PickedAt(free', need, picks, left, x) {
      assert PickedAt(free, need, picks, left, x);
    }
  }

  function Surplus(ids: multiset<int>, required: multiset<int>, x: int): int {
    var have: int, taken: int := ids[x], required[x];
    have - taken
  }

  /** What ids hold of each node beyond the required nodes. */
  ghost predicate Needed(ids: multiset<int>, required: multiset<int>, need: map<int, int>) {
    forall x :: Left(need, x) == Surplus(ids, required, x)
  }

  lemma NeedMore(ids: multiset<int>, required: multiset<int>, need: map<int, int>, id: int)
    requires Needed(ids, required, need)
    ensures Needed(ids + multiset{id}, required, need[id := Left(need, id) + 1])
  {
    var ids', need' := ids + multiset{id}, need[id := Left(need, id) + 1];
    forall x ensures Left(need', x) == Surplus(ids', required, x) {
      assert Left(need, x) == Surplus(ids, required, x);
    }
  }

  lemma NeedLess(ids: multiset<int>, required: multiset<int>, need: map<int, int>, id: int)
    requires Needed(ids, required, need)
    ensures Needed(ids, required + multiset{id}, need[id := Left(need, id) - 1])
  {
    var required', need' := required + multiset{id}, need[id := Left(need, id) - 1];
    forall x ensures Left(need', x) == Surplus(ids, required', x) {
      assert Left(need, x) == Surplus(ids, required, x);
    }
  }

  method CountNeed(ids: seq<int>, required: seq<Device>) returns (need: map<int, int>)
    ensures Needed(multiset(ids), Nodes(required), need)
  {
    hide Nodes;
    need := map[];
    assert multiset(ids[..0]) == multiset{};
    NothingNeeded(required);
    hide Needed;
    for i := 0 to |ids|
      invariant Needed(multiset(ids[..i]), multiset{}, need)
    {
      assert ids[..i + 1] == ids[..i] + [ids[i]];
      NeedMore(multiset(ids[..i]), multiset{}, need, ids[i]);
      need := need[ids[i] := Left(need, ids[i]) + 1];
    }
    assert ids[..|ids|] == ids;
    for i := 0 to |required|
      invariant Needed(multiset(ids), Nodes(required[..i]), need)
    {
      NodesAppend(required, i);
      var node := required[i].nodeId;
      NeedLess(multiset(ids), Nodes(required[..i]), need, node);
      need := need[node := Left(need, node) - 1];
    }
    assert required[..|required|] == required;
  }

  lemma NothingNeeded(required: seq<Device>)
    ensures Nodes(required[..0]) == multiset{}
    ensures Needed(multiset{}, multiset{}, map[])
  {
  }

  lemma NothingPicked(available: seq<Device>, requiredIds: seq<string>, need: map<int, int>)
    ensures Picked(Free(available[..0], requiredIds), need, [], need)
  {
  }

  lemma FreeNext(available: seq<Device>, requiredIds: seq<string>, i: nat)
    requires i < |available|
    ensures available[i].id in requiredIds ==> Free(available[..i + 1], requiredIds) == Free(available[..i], requiredIds)
    ensures available[i].id !in requiredIds ==>
      Free(available[..i + 1], requiredIds) == Free(available[..i], requiredIds) + [available[i]]
  {
    assert available[..i + 1][..i] == available[..i];
  }

  lemma DeviceIdsPush(devs: seq<Device>, d: Device)
    ensures DeviceIds(devs + [d]) == DeviceIds(devs) + [d.id]
  {
  }

  method PickDevices(need: map<int, int>, available: seq<Device>, requiredIds: seq<string>)
    returns (outset: seq<string>, ghost picks: seq<Device>, ghost left: map<int, int>)
    ensures requiredIds <= outset
    ensures outset == requiredIds + DeviceIds(picks)
    ensures Picked(Free(available, requiredIds), need, picks, left)
  {
    hide Picked, Free, DeviceIds;
    outset, picks := requiredIds, [];
    var n := need;
    NothingPicked(available, requiredIds, need);
    NoDeviceIds();
    for i := 0 to |available|
      invariant outset == requiredIds + DeviceIds(picks)
      invariant Picked(Free(available[..i], requiredIds), need, picks, n)
    {
      var d := available[i];
      FreeNext(available, requiredIds, i);
      if Left(n, d.nodeId) > 0 && d.id !in requiredIds {
        PickTake(Free(available[..i], requiredIds), need, picks, n, d);
        DeviceIdsPush(picks, d);
        n := n[d.nodeId := n[d.nodeId] - 1];
        outset := outset + [d.id];
        picks := picks + [d];
      } else if d.id !in requiredIds {
        PickPass(Free(available[..i], requiredIds), need, picks, n, d);
      }
    }
    assert available[..|available|] == available;
    left := n;
  }

  lemma NoDeviceIds()
    ensures DeviceIds([]) == []
  {
  }
}
