/**
 * Devices grouped by GPU, and the groups cut down to what is free: the available devices of each node less the ones
 * that must be included anyway. Split devices of one GPU share a node id, so ids are counted.
 */
module DeviceGroups {
  import opened PairWeights
  import opened Permutation
  import opened Sorting

  datatype DevicePartitions = DevicePartitions(parentId: string, devId: string, ids: seq<int>, devs: seq<string>)

  type PartitionMap = map<string, DevicePartitions>

  predicate Contains(s: string, sub: string) {
    |sub| <= |s| && (s[..|sub|] == sub || (s != [] && Contains(s[1..], sub)))
  }

  /** s is sub with something before and after it. */
  predicate Framed(s: string, before: string, sub: string, after: string) {
    s == before + sub + after
  }

  lemma {:induction false} ContainsExactly(s: string, sub: string)
    ensures Contains(s, sub) <==> exists before, after :: Framed(s, before, sub, after)
  {
    forall after ensures Framed(s, "", sub, after) ==> |sub| <= |s| && s[..|sub|] == sub {}
    if |sub| <= |s| && s[..|sub|] == sub {
      assert Framed(s, "", sub, s[|sub|..]);
    } else if s != [] {
      ContainsExactly(s[1..], sub);
      if before, after :| Framed(s[1..], before, sub, after) { assert Framed(s, [s[0]] + before, sub, after); }
      if before, after :| Framed(s, before, sub, after) {
        assert before != "" ==> Framed(s[1..], before[1..], sub, after);
      }
    }
  }

  // ---------- grouping ----------

  /** The group of one GPU among the first devices: its nodes and ids in device order, and its last non-partition id. */
  function GroupOf(devs: seq<Device>, devId: string): (g: DevicePartitions)
    ensures g.devId == devId && |g.ids| == |g.devs|
  {
    if devs == [] then DevicePartitions("", devId, [], [])
    else
      var g, d := GroupOf(devs[..|devs| - 1], devId), devs[|devs| - 1];
      if d.devId != devId then g
      else DevicePartitions(if Contains(d.id, "amdgpu_xcp") then g.parentId else d.id, devId, g.ids + [d.nodeId], g.devs + [d.id])
  }

  predicate HasDev(devs: seq<Device>, devId: string) {
    exists i :: 0 <= i < |devs| && devs[i].devId == devId
  }

  ghost predicate Grouped(devs: seq<Device>, m: PartitionMap) {
    forall d :: (d in m <==> HasDev(devs, d)) && (d in m ==> m[d] == GroupOf(devs, d))
  }

  lemma GroupedNext(devs: seq<Device>, m: PartitionMap, dev: Device)
    requires Grouped(devs, m)
    ensures Grouped(devs + [dev], m[dev.devId := GroupOf(devs + [dev], dev.devId)])
  {
    var all := devs + [dev];
    assert all[..|devs|] == devs;
    forall d ensures HasDev(all, d) <==> HasDev(devs, d) || d == dev.devId {
      HasDevFront(all, d);
    }
  }

  lemma NoGroup(devs: seq<Device>, d: string)
    requires !HasDev(devs, d)
    ensures GroupOf(devs, d) == DevicePartitions("", d, [], [])
  {
    if devs != [] {
      HasDevFront(devs, d);
      NoGroup(devs[..|devs| - 1], d);
    }
  }

  lemma HasDevFront(devs: seq<Device>, d: string)
    requires devs != []
    ensures HasDev(devs, d) <==> HasDev(devs[..|devs| - 1], d) || devs[|devs| - 1].devId == d
  {
    if HasDev(devs[..|devs| - 1], d) {
      var i :| 0 <= i < |devs| - 1 && devs[..|devs| - 1][i].devId == d;
      assert devs[i].devId == d;
    }
  }

  /** The id of a partition of a GPU holds the word "amdgpu_xcp"; any other id is the GPU's own. */
  ghost predicate IsPartition(id: string) {
    exists before, after :: Framed(id, before, "amdgpu_xcp", after)
  }

  /** Device k is the last of GPU d that is not a partition. */
  ghost predicate LastOwn(devs: seq<Device>, d: string, k: nat) {
    && k < |devs| && devs[k].devId == d && !IsPartition(devs[k].id)
    && forall j :: k < j < |devs| && devs[j].devId == d ==> IsPartition(devs[j].id)
  }

  lemma {:induction false} ParentIsLastOwn(devs: seq<Device>, d: string, k: nat)
    requires LastOwn(devs, d, k)
    ensures GroupOf(devs, d).parentId == devs[k].id
  {
    hide IsPartition, Contains;
    var front, last := devs[..|devs| - 1], devs[|devs| - 1];
    PartitionWord(last.id);
    if k < |front| { ParentIsLastOwn(front, d, k); }
  }

  lemma PartitionWord(id: string)
    ensures IsPartition(id) <==> Contains(id, "amdgpu_xcp")
  {
    ContainsExactly(id, "amdgpu_xcp");
  }

  /** Every GPU is named after its last device that is not a partition. */
  ghost predicate NamedAfterOwn(devs: seq<Device>, m: PartitionMap) {
    forall d, k: nat :: LastOwn(devs, d, k) ==> d in m && m[d].parentId == devs[k].id
  }

  lemma GroupedNames(devs: seq<Device>, m: PartitionMap)
    requires Grouped(devs, m)
    ensures NamedAfterOwn(devs, m)
  {
    hide IsPartition, GroupOf;
    forall d, k: nat | LastOwn(devs, d, k) ensures d in m && m[d].parentId == devs[k].id {
      ParentIsLastOwn(devs, d, k);
      assert HasDev(devs, d);
    }
  }

  method GroupPartitionsByDevId(devs: seq<Device>) returns (partitions: PartitionMap)
    ensures Grouped(devs, partitions)
    ensures NamedAfterOwn(devs, partitions)
  {
    hide NamedAfterOwn;
    partitions := map[];
    assert devs[..0] == [];
    for i := 0 to |devs|
      invariant Grouped(devs[..i], partitions)
    {
      var dev := devs[i];
      var seen := devs[..i];
      assert devs[..i + 1] == seen + [dev];
      GroupedNext(seen, partitions, dev);
      NoGroupYet(seen, partitions, dev.devId);
      assert (seen + [dev])[..|seen|] == seen;
      hide Grouped;
      ghost var before := partitions;
      if dev.devId !in partitions {
        partitions := partitions[dev.devId := DevicePartitions("", dev.devId, [], [])];
      }
      if !Contains(dev.id, "amdgpu_xcp") {
        partitions := partitions[dev.devId := partitions[dev.devId].(parentId := dev.id)];
      }
      partitions := partitions[dev.devId := partitions[dev.devId].(ids := partitions[dev.devId].ids + [dev.nodeId])];
      partitions := partitions[dev.devId := partitions[dev.devId].(devs := partitions[dev.devId].devs + [dev.id])];
      assert partitions == before[dev.devId := GroupOf(seen + [dev], dev.devId)];
    }
    assert devs[..|devs|] == devs;
    GroupedNames(devs, partitions);
  }

  lemma NoGroupYet(devs: seq<Device>, m: PartitionMap, d: string)
    requires Grouped(devs, m)
    ensures d in m ==> m[d] == GroupOf(devs, d)
    ensures d !in m ==> GroupOf(devs, d) == DevicePartitions("", d, [], [])
  {
    if d !in m { NoGroup(devs, d); }
  }

  // ---------- counting nodes ----------

  /** The nodes of the devices whose GPU is in gpus. */
  function NodesOf(devs: seq<Device>, gpus: set<string>): multiset<int> {
    if devs == [] then multiset{}
    else NodesOf(devs[..|devs| - 1], gpus) + (if devs[|devs| - 1].devId in gpus then multiset{devs[|devs| - 1].nodeId} else multiset{})
  }

  /** The nodes of all devices. */
  function Nodes(devs: seq<Device>): multiset<int> {
    if devs == [] then multiset{} else Nodes(devs[..|devs| - 1]) + multiset{devs[|devs| - 1].nodeId}
  }

  lemma {:induction false} NodesOfAll(devs: seq<Device>, gpus: set<string>)
    requires forall i :: 0 <= i < |devs| ==> devs[i].devId in gpus
    ensures NodesOf(devs, gpus) == Nodes(devs)
  {
    if devs != [] { NodesOfAll(devs[..|devs| - 1], gpus); }
  }

  lemma {:induction false} NodesOfNone(devs: seq<Device>)
    ensures NodesOf(devs, {}) == multiset{}
  {
    if devs != [] { NodesOfNone(devs[..|devs| - 1]); }
  }

  /** One more GPU adds the nodes of its group. */
  lemma {:induction false} NodesOfAdd(devs: seq<Device>, gpus: set<string>, d: string)
    requires d !in gpus
    ensures NodesOf(devs, gpus + {d}) == NodesOf(devs, gpus) + multiset(GroupOf(devs, d).ids)
  {
    if devs != [] {
      NodesOfAdd(devs[..|devs| - 1], gpus, d);
      hide Contains;
    }
  }

  // ---------- filtering ----------

  function Min(a: int, b: int): int {
    if a < b then a else b
  }

  /** How many available devices of a node are left beside the required ones; negative when more are required. */
  function Rest(available: seq<Device>, required: seq<Device>, node: int): int {
    var have: int, taken: int := Nodes(available)[node], Nodes(required)[node];
    have - taken
  }

  function Quota(rest: int): nat {
    if rest < 0 then 0 else rest
  }

  function Left(remaining: map<int, int>, node: int): int {
    if node in remaining then remaining[node] else 0
  }

  ghost predicate Counted(remaining: map<int, int>, available: seq<Device>, required: seq<Device>) {
    forall x :: Left(remaining, x) == Rest(available, required, x)
  }

  lemma NodesAppend(devs: seq<Device>, i: nat)
    requires i < |devs|
    ensures Nodes(devs[..i + 1]) == Nodes(devs[..i]) + multiset{devs[i].nodeId}
  {
    assert devs[..i + 1][..i] == devs[..i];
  }

  lemma CountAvailable(remaining: map<int, int>, available: seq<Device>, i: nat)
    requires i < |available| && Counted(remaining, available[..i], [])
    ensures var node := available[i].nodeId;
      Counted(remaining[node := Left(remaining, node) + 1], available[..i + 1], [])
  {
    hide Nodes;
    NodesAppend(available, i);
    var next, node := available[..i + 1], available[i].nodeId;
    var after := remaining[node := Left(remaining, node) + 1];
    forall x ensures Left(after, x) == Rest(next, [], x) {
      assert Left(remaining, x) == Rest(available[..i], [], x);
    }
  }

  lemma CountRequired(remaining: map<int, int>, available: seq<Device>, required: seq<Device>, i: nat)
    requires i < |required| && Counted(remaining, available, required[..i])
    ensures var node := required[i].nodeId;
      Counted(remaining[node := Left(remaining, node) - 1], available, required[..i + 1])
  {
    hide Nodes;
    NodesAppend(required, i);
    var next, node := required[..i + 1], required[i].nodeId;
    var after := remaining[node := Left(remaining, node) - 1];
    forall x ensures Left(after, x) == Rest(available, next, x) {
      assert Left(remaining, x) == Rest(available, required[..i], x);
    }
  }

  method CountRemaining(available: seq<Device>, required: seq<Device>) returns (remaining: map<int, int>)
    ensures Counted(remaining, available, required)
  {
    remaining := map[];
    assert available[..0] == [] && required[..0] == [];
    assert Counted(remaining, available[..0], []);
    hide Counted, Nodes;
    for i := 0 to |available|
      invariant Counted(remaining, available[..i], [])
    {
      CountAvailable(remaining, available, i);
      var node := available[i].nodeId;
      remaining := remaining[node := Left(remaining, node) + 1];
    }
    assert available[..|available|] == available;
    for i := 0 to |required|
      invariant Counted(remaining, available, required[..i])
    {
      CountRequired(remaining, available, required, i);
      var node := required[i].nodeId;
      remaining := remaining[node := Left(remaining, node) - 1];
    }
    assert required[..|required|] == required;
  }

  ghost predicate KeptAt(ids: multiset<int>, before: map<int, int>, kept: multiset<int>, after: map<int, int>, x: int) {
    kept[x] == Min(ids[x], Quota(Left(before, x))) && Left(after, x) == Left(before, x) - kept[x]
  }

  /** From a group as many ids of each node as are left, and no more. */
  ghost predicate Kept(ids: multiset<int>, before: map<int, int>, kept: multiset<int>, after: map<int, int>) {
    forall x :: KeptAt(ids, before, kept, after, x)
  }

  lemma KeptTake(ids: multiset<int>, before: map<int, int>, kept: multiset<int>, after: map<int, int>, id: int)
    requires Kept(ids, before, kept, after) && Left(after, id) > 0
    ensures Kept(ids + multiset{id}, before, kept + multiset{id}, after[id := Left(after, id) - 1])
  {
    var ids', kept', after' := ids + multiset{id}, kept + multiset{id}, after[id := Left(after, id) - 1];
    forall x ensures KeptAt(ids', before, kept', after', x) {
      assert KeptAt(ids, before, kept, after, x);
    }
  }

  lemma KeptDrop(ids: multiset<int>, before: map<int, int>, kept: multiset<int>, after: map<int, int>, id: int)
    requires Kept(ids, before, kept, after) && Left(after, id) <= 0
    ensures Kept(ids + multiset{id}, before, kept, after)
  {
    var ids' := ids + multiset{id};
    forall x ensures KeptAt(ids', before, kept, after, x) {
      assert KeptAt(ids, before, kept, after, x);
    }
  }

  method FilterGroup(ids: seq<int>, before: map<int, int>) returns (kept: seq<int>, remaining: map<int, int>)
    ensures Kept(multiset(ids), before, multiset(kept), remaining)
  {
    kept, remaining := [], before;
    assert multiset(ids[..0]) == multiset{};
    assert Kept(multiset(ids[..0]), before, multiset(kept), remaining);
    hide Kept;
    for i := 0 to |ids|
      invariant Kept(multiset(ids[..i]), before, multiset(kept), remaining)
    {
      assert ids[..i + 1] == ids[..i] + [ids[i]];
      var id := ids[i];
      if Left(remaining, id) > 0 {
        KeptTake(multiset(ids[..i]), before, multiset(kept), remaining, id);
        remaining := remaining[id := remaining[id] - 1];
        kept := kept + [id];
      } else {
        KeptDrop(multiset(ids[..i]), before, multiset(kept), remaining, id);
      }
    }
    assert ids[..|ids|] == ids;
  }

  predicate IntLess(a: int, b: int) {
    a < b
  }

  /** Groups with fewer free ids come first, then by the id of the GPU itself. */
  predicate GroupLess(a: DevicePartitions, b: DevicePartitions) {
    if |a.ids| == |b.ids| then StringLess(a.parentId, b.parentId) else |a.ids| < |b.ids|
  }

  lemma GroupOrder()
    ensures StrictOrder(GroupLess)
  {
    hide StringLess;
    forall a ensures !GroupLess(a, a) { StringIrreflexive(a.parentId); }
    forall a, b, c | GroupLess(a, b) && GroupLess(b, c) ensures GroupLess(a, c) {
      if StringLess(a.parentId, b.parentId) && StringLess(b.parentId, c.parentId) {
        StringTransitive(a.parentId, b.parentId, c.parentId);
      }
    }
  }

  function AllIds(groups: seq<DevicePartitions>): multiset<int> {
    if groups == [] then multiset{} else AllIds(groups[..|groups| - 1]) + multiset(groups[|groups| - 1].ids)
  }

  /** A filtered group: some ids of one registered GPU, in ascending order. */
  ghost predicate GroupEntry(devs: seq<Device>, g: DevicePartitions) {
    && HasDev(devs, g.devId) && g.parentId == GroupOf(devs, g.devId).parentId && g.devs == []
    && g.ids != [] && Ordered(g.ids, IntLess) && multiset(g.ids) <= multiset(GroupOf(devs, g.devId).ids)
  }

  ghost predicate GroupEntries(devs: seq<Device>, gpus: set<string>, groups: seq<DevicePartitions>) {
    && NoDuplicates(groups)
    && (forall g :: g in groups ==> g.devId in gpus && GroupEntry(devs, g))
    && (forall g, h :: g in groups && h in groups && g.devId == h.devId ==> g == h)
  }

  function Gpus(devs: seq<Device>): set<string> {
    set i | 0 <= i < |devs| :: devs[i].devId
  }

  /** A node is kept as often as it is available beyond the required devices, as far as it is registered. */
  ghost predicate FilteredAt(devs: seq<Device>, available: seq<Device>, required: seq<Device>, kept: multiset<int>, x: int) {
    kept[x] == Min(Nodes(devs)[x], Quota(Rest(available, required, x)))
  }

  ghost predicate Filtered(devs: seq<Device>, available: seq<Device>, required: seq<Device>, groups: seq<DevicePartitions>) {
    && GroupEntries(devs, Gpus(devs), groups)
    && Ordered(groups, GroupLess)
    && (forall x :: FilteredAt(devs, available, required, AllIds(groups), x))
  }

  /** The same, while only the groups in done have been filtered. */
  ghost predicate KeptSoFarAt(devs: seq<Device>, done: set<string>, rest: int, taken: multiset<int>, remaining: map<int, int>, x: int) {
    taken[x] == Min(NodesOf(devs, done)[x], Quota(rest)) && Left(remaining, x) == rest - taken[x]
  }

  ghost predicate KeptSoFar(devs: seq<Device>, done: set<string>, available: seq<Device>, required: seq<Device>,
                        taken: multiset<int>, remaining: map<int, int>)
  {
    forall x :: KeptSoFarAt(devs, done, Rest(available, required, x), taken, remaining, x)
  }

  lemma KeptSoFarStart(devs: seq<Device>, available: seq<Device>, required: seq<Device>, remaining: map<int, int>)
    requires Counted(remaining, available, required)
    ensures KeptSoFar(devs, {}, available, required, multiset{}, remaining)
  {
    NodesOfNone(devs);
    hide NodesOf, Nodes;
    forall x ensures KeptSoFarAt(devs, {}, Rest(available, required, x), multiset{}, remaining, x) {
      assert Left(remaining, x) == Rest(available, required, x);
    }
  }

  lemma KeptSoFarStep(devs: seq<Device>, done: set<string>, available: seq<Device>, required: seq<Device>, taken: multiset<int>,
                  before: map<int, int>, d: string, kept: multiset<int>, after: map<int, int>)
    requires KeptSoFar(devs, done, available, required, taken, before) && d !in done
    requires Kept(multiset(GroupOf(devs, d).ids), before, kept, after)
    ensures KeptSoFar(devs, done + {d}, available, required, taken + kept, after)
  {
    NodesOfAdd(devs, done, d);
    hide NodesOf, Nodes, GroupOf, Rest;
    var done', taken' := done + {d}, taken + kept;
    forall x ensures KeptSoFarAt(devs, done', Rest(available, required, x), taken', after, x) {
      assert KeptSoFarAt(devs, done, Rest(available, required, x), taken, before, x);
      assert KeptAt(multiset(GroupOf(devs, d).ids), before, kept, after, x);
    }
  }

  lemma KeptSoFarEnd(devs: seq<Device>, available: seq<Device>, required: seq<Device>, taken: multiset<int>, remaining: map<int, int>)
    requires KeptSoFar(devs, Gpus(devs), available, required, taken, remaining)
    ensures forall x :: FilteredAt(devs, available, required, taken, x)
  {
    NodesOfAll(devs, Gpus(devs));
    hide NodesOf, Nodes, Rest;
    forall x ensures FilteredAt(devs, available, required, taken, x) {
      assert KeptSoFarAt(devs, Gpus(devs), Rest(available, required, x), taken, remaining, x);
    }
  }

  lemma EntriesAdd(devs: seq<Device>, done: set<string>, groups: seq<DevicePartitions>, g: DevicePartitions)
    requires GroupEntries(devs, done, groups) && g.devId !in done && GroupEntry(devs, g)
    ensures GroupEntries(devs, done + {g.devId}, groups + [g])
  {
    hide GroupEntry;
  }

  lemma EntriesGrow(devs: seq<Device>, done: set<string>, groups: seq<DevicePartitions>, d: string)
    requires GroupEntries(devs, done, groups)
    ensures GroupEntries(devs, done + {d}, groups)
  {
    hide GroupEntry;
  }

  lemma EntriesPermute(devs: seq<Device>, gpus: set<string>, a: seq<DevicePartitions>, b: seq<DevicePartitions>)
    requires multiset(a) == multiset(b) && GroupEntries(devs, gpus, a)
    ensures GroupEntries(devs, gpus, b)
  {
    SameContents(a, b);
    NoDuplicatesPermute(a, b);
    hide GroupEntry, NoDuplicates;
  }

  lemma AllIdsAppend(groups: seq<DevicePartitions>, g: DevicePartitions)
    ensures AllIds(groups + [g]) == AllIds(groups) + multiset(g.ids)
  {
    assert (groups + [g])[..|groups|] == groups;
  }

  lemma {:induction false} AllIdsRemove(groups: seq<DevicePartitions>, k: nat)
    requires k < |groups|
    ensures AllIds(groups) == AllIds(Without(groups, k)) + multiset(groups[k].ids)
  {
    var front, last := groups[..|groups| - 1], groups[|groups| - 1];
    if k < |front| {
      AllIdsRemove(front, k);
      WithoutFront(groups, k);
      AllIdsAppend(Without(front, k), last);
    } else {
      WithoutLast(groups);
    }
  }

  lemma {:induction false} AllIdsPermute(a: seq<DevicePartitions>, b: seq<DevicePartitions>)
    requires multiset(a) == multiset(b)
    ensures AllIds(a) == AllIds(b)
  {
    SameLength(a, b);
    if a != [] {
      var k := LastOccurs(a, b);
      AllIdsPermute(a[..|a| - 1], Without(b, k));
      AllIdsRemove(b, k);
    }
  }

  lemma GroupKeys(devs: seq<Device>, partitions: PartitionMap)
    requires Grouped(devs, partitions)
    ensures partitions.Keys == Gpus(devs)
  {
    hide GroupOf;
    forall d ensures d in partitions <==> d in Gpus(devs) {
      assert d in partitions <==> HasDev(devs, d);
    }
  }

  lemma KeptSome(ids: seq<int>, before: map<int, int>, kept: seq<int>, after: map<int, int>)
    requires Kept(multiset(ids), before, multiset(kept), after)
    ensures multiset(kept) <= multiset(ids)
  {
    forall x ensures multiset(kept)[x] <= multiset(ids)[x] {
      assert KeptAt(multiset(ids), before, multiset(kept), after, x);
    }
  }

  lemma IntOrder()
    ensures StrictOrder(IntLess)
  {
  }

  /** One group of the loop in filterPartitions: its filtered form, unless nothing of it is left. */
  method AddFiltered(ghost devs: seq<Device>, ghost done: set<string>, p: DevicePartitions, remaining: map<int, int>,
                     groups: seq<DevicePartitions>)
    returns (groups': seq<DevicePartitions>, remaining': map<int, int>, ghost kept: multiset<int>)
    requires HasDev(devs, p.devId) && p == GroupOf(devs, p.devId) && p.devId !in done && GroupEntries(devs, done, groups)
    ensures Kept(multiset(p.ids), remaining, kept, remaining')
    ensures GroupEntries(devs, done + {p.devId}, groups') && AllIds(groups') == AllIds(groups) + kept
  {
    hide GroupEntries, GroupOf, HasDev, Kept;
    var filteredIds;
    filteredIds, remaining' := FilterGroup(p.ids, remaining);
    KeptSome(p.ids, remaining, filteredIds, remaining');
    kept := multiset(filteredIds);
    groups' := groups;
    if |filteredIds| > 0 {
      IntOrder();
      var sorted := Sort(filteredIds, IntLess);
      SameContents(sorted, filteredIds);
      var g := DevicePartitions(p.parentId, p.devId, sorted, []);
      EntriesAdd(devs, done, groups, g);
      AllIdsAppend(groups, g);
      groups' := groups + [g];
    } else {
      EntriesGrow(devs, done, groups, p.devId);
    }
  }

  /** GPUs with fewer free devices come first, and of GPUs with equally many the one with the smaller name. */
  ghost predicate FewestFirst(groups: seq<DevicePartitions>) {
    forall i, j :: 0 <= i < j < |groups| ==>
      && |groups[i].ids| <= |groups[j].ids|
      && (|groups[i].ids| == |groups[j].ids| ==>
            groups[i].parentId == groups[j].parentId || StringLess(groups[i].parentId, groups[j].parentId))
  }

  /** The groups are visited in an arbitrary order, as a map is. */
  method FilterPartitions(ghost devs: seq<Device>, partitions: PartitionMap, available: seq<Device>, required: seq<Device>)
    returns (outset: seq<DevicePartitions>)
    requires Grouped(devs, partitions)
    ensures Filtered(devs, available, required, outset)
    ensures FewestFirst(outset)
  {
    var remaining := CountRemaining(available, required);
    KeptSoFarStart(devs, available, required, remaining);
    var groups: seq<DevicePartitions> := [];
    var todo := partitions.Keys;
    ghost var done: set<string> := {};
    assert GroupEntries(devs, done, groups);
    hide GroupEntries, GroupOf, HasDev, Kept, KeptSoFar, Counted, FewestFirst;
    while todo != {}
      invariant done + todo == partitions.Keys && done !! todo
      invariant GroupEntries(devs, done, groups)
      invariant KeptSoFar(devs, done, available, required, AllIds(groups), remaining)
      decreases todo
    {
      var d :| d in todo;
      ghost var before, taken := remaining, AllIds(groups);
      ghost var kept;
      groups, remaining, kept := AddFiltered(devs, done, partitions[d], remaining, groups);
      KeptSoFarStep(devs, done, available, required, taken, before, d, kept, remaining);
      done, todo := done + {d}, todo - {d};
    }
    GroupKeys(devs, partitions);
    assert done == Gpus(devs);
    KeptSoFarEnd(devs, available, required, AllIds(groups), remaining);
    GroupOrder();
    outset := Sort(groups, GroupLess);
    EntriesPermute(devs, Gpus(devs), groups, outset);
    AllIdsPermute(groups, outset);
    OrderedFewestFirst(outset);
  }

  lemma OrderedFewestFirst(groups: seq<DevicePartitions>)
    requires Ordered(groups, GroupLess)
    ensures FewestFirst(groups)
  {
    hide StringLess;
    forall i, j | 0 <= i < j < |groups|
      ensures |groups[i].ids| <= |groups[j].ids|
      ensures |groups[i].ids| == |groups[j].ids| ==>
        groups[i].parentId == groups[j].parentId || StringLess(groups[i].parentId, groups[j].parentId)
    {
      assert !GroupLess(groups[j], groups[i]);
      StringTotal(groups[i].parentId, groups[j].parentId);
    }
  }
}
