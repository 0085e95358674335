/** Device ids resolved against the registered devices, and what that means for node counts. */
module RegisteredDevices {
  import opened CandidateSubsets
  import opened DeviceGroups
  import opened PairWeights
  import opened Permutation
  import opened Sorting

  type DeviceMap = map<string, Device>

  /** Every entry is a device under its own id. */
  predicate ById(m: DeviceMap) {
    forall id :: id in m ==> m[id].id == id
  }

  /** The table entries of ids are devices of the present registration; other entries may be left from earlier ones. */
  predicate Present(devs: seq<Device>, m: DeviceMap, ids: seq<string>) {
    forall id :: id in ids && id in m ==> m[id] in devs
  }

  /** The devices of the registered ids, in order; the others are dropped. */
  function Registered(m: DeviceMap, ids: seq<string>): seq<Device> {
    if ids == [] then []
    else Registered(m, ids[..|ids| - 1]) + (if ids[|ids| - 1] in m then [m[ids[|ids| - 1]]] else [])
  }

  method GetDevicesFromIds(m: DeviceMap, ids: seq<string>) returns (res: seq<Device>)
    ensures res == Registered(m, ids)
  {
    res := [];
    assert ids[..0] == [];
    for i := 0 to |ids|
      invariant res == Registered(m, ids[..i])
    {
      assert ids[..i + 1][..i] == ids[..i];
      if ids[i] in m { res := res + [m[ids[i]]]; }
    }
    assert ids[..|ids|] == ids;
  }

  lemma {:induction false} RegisteredMembers(m: DeviceMap, ids: seq<string>, d: Device)
    requires ById(m)
    ensures d in Registered(m, ids) <==> d.id in ids && d.id in m && m[d.id] == d
  {
    if ids != [] {
      var front, last := ids[..|ids| - 1], ids[|ids| - 1];
      RegisteredMembers(m, front, d);
      assert ids == front + [last];
    }
  }

  lemma {:induction false} RegisteredDistinct(m: DeviceMap, ids: seq<string>)
    requires ById(m) && NoDuplicates(ids)
    ensures NoDuplicates(Registered(m, ids))
  {
    if ids != [] {
      var front, last := ids[..|ids| - 1], ids[|ids| - 1];
      RegisteredDistinct(m, front);
      if last in m { RegisteredMembers(m, front, m[last]); }
    }
  }

  lemma {:induction false} RegisteredSize(m: DeviceMap, ids: seq<string>)
    ensures |Registered(m, ids)| <= |ids|
    ensures |Registered(m, ids)| == |ids| <==> forall id :: id in ids ==> id in m
  {
    if ids != [] {
      var front, last := ids[..|ids| - 1], ids[|ids| - 1];
      RegisteredSize(m, front);
      assert ids == front + [last];
      assert last in ids;
    }
  }

  lemma {:induction false} FreeMembers(available: seq<Device>, requiredIds: seq<string>, d: Device)
    ensures d in Free(available, requiredIds) <==> d in available && d.id !in requiredIds
  {
    if available != [] {
      var front, last := available[..|available| - 1], available[|available| - 1];
      FreeMembers(front, requiredIds, d);
      assert available == front + [last];
    }
  }

  lemma {:induction false} FreeDistinct(available: seq<Device>, requiredIds: seq<string>)
    requires NoDuplicates(available)
    ensures NoDuplicates(Free(available, requiredIds))
  {
    if available != [] {
      var front, last := available[..|available| - 1], available[|available| - 1];
      FreeDistinct(front, requiredIds);
      FreeMembers(front, requiredIds, last);
    }
  }

  // ---------- node counts of reordered lists ----------

  lemma {:induction false} NodesRemove(devs: seq<Device>, k: nat)
    requires k < |devs|
    ensures Nodes(devs) == Nodes(Without(devs, k)) + multiset{devs[k].nodeId}
  {
    hide Nodes;
    var front, last := devs[..|devs| - 1], devs[|devs| - 1];
    assert devs == front + [last];
    NodesPush(front, last);
    if k < |front| {
      NodesRemove(front, k);
      WithoutFront(devs, k);
      NodesPush(Without(front, k), last);
    } else {
      WithoutLast(devs);
    }
  }

  /** A sub-list, in any order, has a sub-multiset of the nodes. */
  lemma {:induction false} NodesMonotone(a: seq<Device>, b: seq<Device>)
    requires multiset(a) <= multiset(b)
    ensures Nodes(a) <= Nodes(b)
  {
    if a != [] {
      var front, last := a[..|a| - 1], a[|a| - 1];
      assert a == front + [last];
      assert last in multiset(b);
      var k :| 0 <= k < |b| && b[k] == last;
      WithoutMultiset(b, k);
      FrontMultiset(a);
      assert multiset(Without(b, k)) == multiset(b) - multiset{last};
      NodesMonotone(front, Without(b, k));
      NodesRemove(b, k);
    }
  }

  lemma NodesPermute(a: seq<Device>, b: seq<Device>)
    requires multiset(a) == multiset(b)
    ensures Nodes(a) == Nodes(b)
  {
    NodesMonotone(a, b);
    NodesMonotone(b, a);
  }

  lemma NodesNone()
    ensures Nodes([]) == multiset{}
  {
  }

  lemma {:induction false} NodesConcat(a: seq<Device>, b: seq<Device>)
    ensures Nodes(a + b) == Nodes(a) + Nodes(b)
  {
    hide Nodes;
    NodesNone();
    if b == [] {
      assert a + b == a;
    } else {
      var front, last := b[..|b| - 1], b[|b| - 1];
      NodesConcat(a, front);
      assert a + b == (a + front) + [last];
      assert b == front + [last];
      NodesPush(a + front, last);
      NodesPush(front, last);
    }
  }

  // ---------- a well-formed request ----------

  lemma AllRegistered(devs: seq<Device>, m: DeviceMap, ids: seq<string>)
    requires ById(m) && NoDuplicates(ids) && Present(devs, m, ids)
    ensures multiset(Registered(m, ids)) <= multiset(devs)
  {
    var r := Registered(m, ids);
    RegisteredDistinct(m, ids);
    forall d ensures multiset(r)[d] <= multiset(devs)[d] {
      RegisteredMembers(m, ids, d);
      NoDuplicatesCount(r, d);
      if d in r { assert d in multiset(devs); }
    }
  }

  /** The available devices are the free ones and the required ones. */
  lemma FreeAndRequired(m: DeviceMap, available: seq<Device>, availableIds: seq<string>, requiredIds: seq<string>)
    requires ById(m) && NoDuplicates(availableIds) && NoDuplicates(requiredIds)
    requires forall id :: id in requiredIds ==> id in availableIds
    requires multiset(available) == multiset(Registered(m, availableIds))
    ensures NoDuplicates(available) && NoDuplicates(Free(available, requiredIds))
    ensures multiset(available) == multiset(Free(available, requiredIds)) + multiset(Registered(m, requiredIds))
    ensures Nodes(available) == Nodes(Free(available, requiredIds)) + Nodes(Registered(m, requiredIds))
  {
    var a, free, required := Registered(m, availableIds), Free(available, requiredIds), Registered(m, requiredIds);
    RegisteredDistinct(m, availableIds);
    RegisteredDistinct(m, requiredIds);
    NoDuplicatesPermute(a, available);
    FreeDistinct(available, requiredIds);
    SameContents(available, a);
    hide NoDuplicates, ById, Registered, Free, Nodes;
    forall d ensures multiset(available)[d] == (multiset(free) + multiset(required))[d] {
      RegisteredMembers(m, availableIds, d);
      RegisteredMembers(m, requiredIds, d);
      FreeMembers(available, requiredIds, d);
      NoDuplicatesCount(available, d);
      NoDuplicatesCount(free, d);
      NoDuplicatesCount(required, d);
    }
    assert multiset(free + required) == multiset(available);
    NodesPermute(available, free + required);
    NodesConcat(free, required);
  }
}
