/** What the filtered groups are, over every order in which the map of groups may be visited. */
module FilteredGroups {
  import opened Arith
  import opened CandidateFamily
  import opened Candidates
  import opened DeviceGroups
  import opened PairWeights
  import opened Permutation
  import opened Sorting

  /** Devices of different GPUs have different nodes. */
  ghost predicate DisjointNodes(devs: seq<Device>) {
    forall i, j :: 0 <= i < |devs| && 0 <= j < |devs| && devs[i].nodeId == devs[j].nodeId ==> devs[i].devId == devs[j].devId
  }

  /** Different GPUs are named after different devices. */
  ghost predicate DistinctParents(devs: seq<Device>) {
    forall d, e :: HasDev(devs, d) && HasDev(devs, e) && GroupOf(devs, d).parentId == GroupOf(devs, e).parentId ==> d == e
  }

  // ---------- conservation ----------

  lemma {:induction false} NodesSize(devs: seq<Device>)
    ensures |Nodes(devs)| == |devs|
  {
    if devs != [] { NodesSize(devs[..|devs| - 1]); }
  }

  /** No id is lost or made up: what is kept is what is available and not required anyway. */
  lemma Conserved(devs: seq<Device>, available: seq<Device>, required: seq<Device>, groups: seq<DevicePartitions>)
    requires Filtered(devs, available, required, groups)
    requires Nodes(required) <= Nodes(available) <= Nodes(devs)
    ensures AllIds(groups) == Nodes(available) - Nodes(required)
    ensures |AllIds(groups)| == |available| - |required|
  {
    hide Nodes, AllIds, GroupEntries, Ordered;
    forall x ensures AllIds(groups)[x] == (Nodes(available) - Nodes(required))[x] {
      assert FilteredAt(devs, available, required, AllIds(groups), x);
      assert Nodes(required)[x] <= Nodes(available)[x] <= Nodes(devs)[x];
    }
    assert AllIds(groups) == Nodes(available) - Nodes(required);
    NodesSize(available);
    NodesSize(required);
    assert |Nodes(available) - Nodes(required)| == |Nodes(available)| - |Nodes(required)|;
  }

  // ---------- one group ----------

  lemma {:induction false} GroupNode(devs: seq<Device>, d: string, x: int)
    requires x in GroupOf(devs, d).ids
    ensures exists i :: 0 <= i < |devs| && devs[i].devId == d && devs[i].nodeId == x
  {
    var front, last := devs[..|devs| - 1], devs[|devs| - 1];
    if x in GroupOf(front, d).ids {
      GroupNode(front, d, x);
      var i :| 0 <= i < |front| && front[i].devId == d && front[i].nodeId == x;
      assert devs[i].devId == d && devs[i].nodeId == x;
    }
  }

  lemma {:induction false} GroupHasAll(devs: seq<Device>, d: string, x: int)
    requires forall i :: 0 <= i < |devs| && devs[i].nodeId == x ==> devs[i].devId == d
    ensures multiset(GroupOf(devs, d).ids)[x] == Nodes(devs)[x]
  {
    if devs != [] {
      var front := devs[..|devs| - 1];
      assert forall i :: 0 <= i < |front| ==> front[i] == devs[i];
      GroupHasAll(front, d, x);
      hide Contains;
    }
  }

  lemma {:induction false} AllIdsOnly(groups: seq<DevicePartitions>, k: nat, x: int)
    requires k < |groups|
    requires forall j :: 0 <= j < |groups| && j != k ==> x !in groups[j].ids
    ensures AllIds(groups)[x] == multiset(groups[k].ids)[x]
  {
    var front, last := groups[..|groups| - 1], groups[|groups| - 1];
    assert forall j :: 0 <= j < |front| ==> front[j] == groups[j];
    if k < |front| {
      AllIdsOnly(front, k, x);
      assert x !in last.ids;
    } else {
      AllIdsNone(front, x);
    }
  }

  lemma {:induction false} AllIdsNone(groups: seq<DevicePartitions>, x: int)
    requires forall j :: 0 <= j < |groups| ==> x !in groups[j].ids
    ensures AllIds(groups)[x] == 0
  {
    if groups != [] {
      var front := groups[..|groups| - 1];
      assert forall j :: 0 <= j < |front| ==> front[j] == groups[j];
      AllIdsNone(front, x);
    }
  }

  /** A node occurs in the group of its own GPU only. */
  lemma NodeInOneGroup(devs: seq<Device>, gpus: set<string>, groups: seq<DevicePartitions>, j: nat, d: string, x: int)
    requires DisjointNodes(devs) && GroupEntries(devs, gpus, groups) && j < |groups|
    requires x in groups[j].ids && x in GroupOf(devs, d).ids
    ensures groups[j].devId == d
  {
    var g := groups[j];
    assert GroupEntry(devs, g);
    assert x in multiset(g.ids) && x in multiset(GroupOf(devs, g.devId).ids);
    GroupNode(devs, g.devId, x);
    GroupNode(devs, d, x);
    hide GroupOf;
  }

  /** How often the filter keeps node x of GPU d. */
  function KeptOf(devs: seq<Device>, available: seq<Device>, required: seq<Device>, d: string, x: int): int {
    Min(multiset(GroupOf(devs, d).ids)[x], Quota(Rest(available, required, x)))
  }

  lemma FilteredNode(devs: seq<Device>, available: seq<Device>, required: seq<Device>, groups: seq<DevicePartitions>, d: string, x: int)
    requires DisjointNodes(devs) && Filtered(devs, available, required, groups) && x in GroupOf(devs, d).ids
    ensures AllIds(groups)[x] == KeptOf(devs, available, required, d, x)
  {
    GroupNode(devs, d, x);
    GroupHasAll(devs, d, x);
    assert FilteredAt(devs, available, required, AllIds(groups), x);
    hide GroupOf, Nodes, AllIds, GroupEntries, Ordered;
  }

  /** A group keeps of each of its nodes as many as are registered, and available beyond the required ones. */
  lemma GroupExact(devs: seq<Device>, available: seq<Device>, required: seq<Device>, groups: seq<DevicePartitions>, k: nat, x: int)
    requires DisjointNodes(devs) && Filtered(devs, available, required, groups) && k < |groups|
    ensures multiset(groups[k].ids)[x] == KeptOf(devs, available, required, groups[k].devId, x)
  {
    hide GroupOf, Nodes, AllIds, Ordered, DisjointNodes, Rest;
    var d := groups[k].devId;
    if x in GroupOf(devs, d).ids {
      FilteredNode(devs, available, required, groups, d, x);
      forall j | 0 <= j < |groups| && j != k ensures x !in groups[j].ids {
        if x in groups[j].ids { NodeInOneGroup(devs, Gpus(devs), groups, j, d, x); }
      }
      AllIdsOnly(groups, k, x);
    } else {
      assert GroupEntry(devs, groups[k]);
      assert multiset(groups[k].ids)[x] <= multiset(GroupOf(devs, d).ids)[x];
    }
  }

  /** A GPU without a group has nothing left to keep. */
  lemma NoGroupNothingKept(devs: seq<Device>, available: seq<Device>, required: seq<Device>, groups: seq<DevicePartitions>, d: string, x: int)
    requires DisjointNodes(devs) && Filtered(devs, available, required, groups)
    requires forall k :: 0 <= k < |groups| ==> groups[k].devId != d
    ensures KeptOf(devs, available, required, d, x) == 0
  {
    hide GroupOf, Nodes, AllIds, Ordered, DisjointNodes, Rest;
    if x in GroupOf(devs, d).ids {
      FilteredNode(devs, available, required, groups, d, x);
      forall j | 0 <= j < |groups| ensures x !in groups[j].ids {
        if x in groups[j].ids { NodeInOneGroup(devs, Gpus(devs), groups, j, d, x); }
      }
      AllIdsNone(groups, x);
    }
  }

  /** Taking the first n ids of a group takes its lowest ones. */
  lemma PrefixIsLowest(devs: seq<Device>, gpus: set<string>, groups: seq<DevicePartitions>, k: nat, n: nat, x: int, y: int)
    requires GroupEntries(devs, gpus, groups) && k < |groups| && n <= |groups[k].ids|
    requires x in groups[k].ids[..n] && y in groups[k].ids[n..]
    ensures x <= y
  {
    EntryOf(devs, gpus, groups, k);
    var i :| 0 <= i < n && groups[k].ids[i] == x;
    var j :| n <= j < |groups[k].ids| && groups[k].ids[j] == y;
    assert !IntLess(groups[k].ids[j], groups[k].ids[i]);
  }

  // ---------- the map order does not matter ----------

  lemma EntryOf(devs: seq<Device>, gpus: set<string>, groups: seq<DevicePartitions>, k: nat)
    requires GroupEntries(devs, gpus, groups) && k < |groups|
    ensures GroupEntry(devs, groups[k])
  {
    hide GroupEntry;
    assert groups[k] in groups;
  }

  lemma GroupPresent(devs: seq<Device>, available: seq<Device>, required: seq<Device>,
                     a: seq<DevicePartitions>, b: seq<DevicePartitions>, k: nat) returns (j: nat)
    requires DisjointNodes(devs) && Filtered(devs, available, required, a) && Filtered(devs, available, required, b)
    requires k < |a|
    ensures j < |b| && b[j].devId == a[k].devId
  {
    hide GroupOf, Nodes, AllIds, DisjointNodes, KeptOf, GroupEntries, Ordered, HasDev, FilteredAt;
    EntryOf(devs, Gpus(devs), a, k);
    var x := a[k].ids[0];
    GroupExact(devs, available, required, a, k, x);
    assert x in multiset(a[k].ids);
    if forall j :: 0 <= j < |b| ==> b[j].devId != a[k].devId {
      NoGroupNothingKept(devs, available, required, b, a[k].devId, x);
    }
    j :| 0 <= j < |b| && b[j].devId == a[k].devId;
  }

  lemma SameEntry(devs: seq<Device>, g: DevicePartitions, h: DevicePartitions)
    requires GroupEntry(devs, g) && GroupEntry(devs, h) && g.devId == h.devId && multiset(g.ids) == multiset(h.ids)
    ensures g == h
  {
    hide GroupOf, HasDev, Ordered;
    SortedIdsUnique(g.ids, h.ids);
  }

  /** Every group of one result is a group of the other. */
  lemma GroupInBoth(devs: seq<Device>, available: seq<Device>, required: seq<Device>,
                    a: seq<DevicePartitions>, b: seq<DevicePartitions>, k: nat)
    requires DisjointNodes(devs) && Filtered(devs, available, required, a) && Filtered(devs, available, required, b)
    requires k < |a|
    ensures a[k] in b
  {
    hide GroupOf, Nodes, AllIds, DisjointNodes, KeptOf, GroupEntries, GroupEntry, Ordered, FilteredAt;
    var j := GroupPresent(devs, available, required, a, b, k);
    forall x ensures multiset(a[k].ids)[x] == multiset(b[j].ids)[x] {
      GroupExact(devs, available, required, a, k, x);
      GroupExact(devs, available, required, b, j, x);
    }
    EntryOf(devs, Gpus(devs), a, k);
    EntryOf(devs, Gpus(devs), b, j);
    SameEntry(devs, a[k], b[j]);
  }

  lemma SortedIdsUnique(a: seq<int>, b: seq<int>)
    requires multiset(a) == multiset(b) && Ordered(a, IntLess) && Ordered(b, IntLess)
    ensures a == b
  {
    OrderedUnique(a, b, IntLess);
  }

  lemma GroupsTotal(devs: seq<Device>, gpus: set<string>, groups: seq<DevicePartitions>)
    requires DistinctParents(devs) && GroupEntries(devs, gpus, groups)
    ensures TotalOn(groups, GroupLess)
  {
    hide GroupOf, StringLess, HasDev;
    forall i, j | 0 <= i < |groups| && 0 <= j < |groups|
      ensures groups[i] == groups[j] || GroupLess(groups[i], groups[j]) || GroupLess(groups[j], groups[i])
    {
      var g, h := groups[i], groups[j];
      assert g in groups && h in groups && GroupEntry(devs, g) && GroupEntry(devs, h);
      StringTotal(g.parentId, h.parentId);
    }
  }

  /** Whatever order the map is visited in, and however the sort breaks ties, the groups come out the same. */
  lemma OrderIrrelevant(devs: seq<Device>, available: seq<Device>, required: seq<Device>,
                        a: seq<DevicePartitions>, b: seq<DevicePartitions>)
    requires DisjointNodes(devs) && DistinctParents(devs)
    requires Filtered(devs, available, required, a) && Filtered(devs, available, required, b)
    ensures a == b
  {
    hide GroupOf, Nodes, AllIds, DisjointNodes, DistinctParents, GroupEntry, Ordered, NoDuplicates;
    forall g ensures g in a <==> g in b {
      if g in a {
        var k :| 0 <= k < |a| && a[k] == g;
        GroupInBoth(devs, available, required, a, b, k);
      }
      if g in b {
        var k :| 0 <= k < |b| && b[k] == g;
        GroupInBoth(devs, available, required, b, a, k);
      }
    }
    SameMultiset(a, b);
    GroupsTotal(devs, Gpus(devs), a);
    OrderedUnique(a, b, GroupLess);
  }

  // ---------- the groups the enumeration works on ----------

  function IdsOf(groups: seq<DevicePartitions>): Groups {
    seq(|groups|, i requires 0 <= i < |groups| => groups[i].ids)
  }

  lemma FilteredNonEmpty(devs: seq<Device>, gpus: set<string>, groups: seq<DevicePartitions>)
    requires GroupEntries(devs, gpus, groups)
    ensures NonEmpty(IdsOf(groups))
  {
    forall i | 0 <= i < |groups| ensures groups[i].ids != [] {
      assert GroupEntry(devs, groups[i]);
    }
  }

  lemma FilteredDisjoint(devs: seq<Device>, gpus: set<string>, groups: seq<DevicePartitions>)
    requires DisjointNodes(devs) && GroupEntries(devs, gpus, groups)
    ensures DisjointGroups(IdsOf(groups))
  {
    hide GroupOf, DisjointNodes, HasDev;
    forall i, j, x | 0 <= i < j < |groups| && x in groups[i].ids ensures x !in groups[j].ids {
      var g := groups[i];
      assert g in groups && GroupEntry(devs, g) && x in multiset(g.ids);
      assert x in multiset(GroupOf(devs, g.devId).ids);
      if x in groups[j].ids { NodeInOneGroup(devs, gpus, groups, j, g.devId, x); }
    }
  }

  lemma {:induction false} WholeUpTo(groups: seq<DevicePartitions>, n: nat)
    requires n <= |groups|
    ensures InRange(IdsOf(groups), UpTo(n))
    ensures multiset(Whole(IdsOf(groups), UpTo(n))) == AllIds(groups[..n])
  {
    UpToIncreases(IdsOf(groups), n);
    if n > 0 {
      WholeUpTo(groups, n - 1);
      WholeAppend(IdsOf(groups), UpTo(n - 1), n - 1);
      assert groups[..n][..n - 1] == groups[..n - 1];
      hide Whole, Increasing;
    }
  }

  lemma WholeSize(groups: seq<DevicePartitions>)
    ensures InRange(IdsOf(groups), UpTo(|groups|))
    ensures |Whole(IdsOf(groups), UpTo(|groups|))| == |AllIds(groups)|
  {
    WholeUpTo(groups, |groups|);
    assert groups[..|groups|] == groups;
    var whole := Whole(IdsOf(groups), UpTo(|groups|));
    assert |multiset(whole)| == |whole|;
  }
}
