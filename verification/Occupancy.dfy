/** A node's CU occupancy, rebuilt from the annotations of its live Pods alone. */
module Occupancy {
  import opened CuAllocation
  import opened CuList
  import opened DeviceCache
  import opened Permutation
  import opened Text
  import opened Words
  import opened Wrappers

  /** The hami.io/amd-cu-allocated annotation after its JSON is read: device UUID to ID list. */
  datatype CuAnnotation = Blank | Malformed | Entries(lists: map<string, string>)

  datatype PodRecord = PodRecord(terminated: bool, annotation: CuAnnotation)

  /** CU sets per device UUID. */
  type CuMap = map<string, set<nat>>

  function At(m: CuMap, uuid: string): set<nat> {
    if uuid in m then m[uuid] else {}
  }

  /** The CUs one entry denotes. */
  function EntryCus(cache: Cache, uuid: string, list: string): Option<set<nat>> {
    var total := TotalCUs(cache, uuid);
    if total.None? then None else ParseIdList(list, total.value)
  }

  /** Every entry names a known device and holds a valid list. */
  predicate Readable(cache: Cache, lists: map<string, string>) {
    forall uuid :: uuid in lists ==> EntryCus(cache, uuid, lists[uuid]).Some?
  }

  /** What parseCuAllocation accepts: at least one entry, no empty UUID, all of them readable. */
  predicate Decodable(cache: Cache, lists: map<string, string>) {
    lists != map[] && "" !in lists && Readable(cache, lists)
  }

  function ListCus(cache: Cache, lists: map<string, string>): CuMap
    requires Readable(cache, lists)
  {
    map uuid | uuid in lists :: EntryCus(cache, uuid, lists[uuid]).value
  }

  /** A Pod that takes part in the rebuild: not terminated, and its annotation is not blank. */
  predicate Holding(pod: PodRecord) {
    !pod.terminated && !pod.annotation.Blank?
  }

  /** The CU sets a Pod holds, None when its annotation cannot be read. Terminated Pods hold nothing. */
  function PodCus(cache: Cache, pod: PodRecord): Option<CuMap> {
    if !Holding(pod) then Some(map[])
    else if pod.annotation.Malformed? || !Decodable(cache, pod.annotation.lists) then None
    else Some(ListCus(cache, pod.annotation.lists))
  }

  predicate AllDecode(cache: Cache, pods: seq<PodRecord>) {
    forall i :: 0 <= i < |pods| ==> PodCus(cache, pods[i]).Some?
  }

  /** Entries for at least one device, each registered with CUs and with a list that names only CUs it has. */
  predicate ListsKnownCus(cache: Cache, annotation: CuAnnotation) {
    && annotation.Entries? && annotation.lists != map[]
    && forall uuid :: uuid in annotation.lists ==>
      && uuid != ""
      && Lookup(cache, uuid, 0).Some? && Lookup(cache, uuid, 0).value.devcore > 0
      && ParseIdList(annotation.lists[uuid], Lookup(cache, uuid, 0).value.devcore).Some?
  }

  /** The Pods decode exactly if every live one has a blank annotation or one that lists known CUs. */
  lemma DecodesExactly(cache: Cache, pods: seq<PodRecord>)
    ensures AllDecode(cache, pods) <==> forall i :: 0 <= i < |pods| ==>
      pods[i].terminated || pods[i].annotation.Blank? || ListsKnownCus(cache, pods[i].annotation)
  {
    hide Lookup, ParseIdList;
    forall i | 0 <= i < |pods|
      ensures PodCus(cache, pods[i]).Some? <==>
        pods[i].terminated || pods[i].annotation.Blank? || ListsKnownCus(cache, pods[i].annotation)
    {
      if pods[i].annotation.Entries? { EntriesKnown(cache, pods[i].annotation); }
    }
  }

  lemma EntriesKnown(cache: Cache, annotation: CuAnnotation)
    requires annotation.Entries?
    ensures Decodable(cache, annotation.lists) <==> ListsKnownCus(cache, annotation)
  {
    hide Lookup, ParseIdList;
    forall uuid | uuid in annotation.lists
      ensures EntryCus(cache, uuid, annotation.lists[uuid]).Some? <==>
        && Lookup(cache, uuid, 0).Some? && Lookup(cache, uuid, 0).value.devcore > 0
        && ParseIdList(annotation.lists[uuid], Lookup(cache, uuid, 0).value.devcore).Some? {}
  }

  function AllCus(cache: Cache, pods: seq<PodRecord>): seq<CuMap>
    requires AllDecode(cache, pods)
  {
    seq(|pods|, i requires 0 <= i < |pods| => PodCus(cache, pods[i]).value)
  }

  /** How many of the maps hold CU c of device uuid. */
  function Holders(allocs: seq<CuMap>, uuid: string, c: nat): nat {
    if allocs == [] then 0
    else Holders(allocs[..|allocs| - 1], uuid, c) + if c in At(allocs[|allocs| - 1], uuid) then 1 else 0
  }

  /** No two Pods share a CU of a device. */
  ghost predicate PairwiseDisjoint(allocs: seq<CuMap>) {
    forall i, j, uuid :: 0 <= i < j < |allocs| ==> At(allocs[i], uuid) !! At(allocs[j], uuid)
  }

  function Merge(a: CuMap, b: CuMap): CuMap {
    map uuid | uuid in a.Keys + b.Keys :: At(a, uuid) + At(b, uuid)
  }

  /** The union of all maps, device by device. */
  function Union(allocs: seq<CuMap>): CuMap {
    if allocs == [] then map[] else Merge(Union(allocs[..|allocs| - 1]), allocs[|allocs| - 1])
  }

  function SumSizes(allocs: seq<CuMap>, uuid: string): nat {
    if allocs == [] then 0 else SumSizes(allocs[..|allocs| - 1], uuid) + |At(allocs[|allocs| - 1], uuid)|
  }

  // ---------- what the union is ----------

  lemma {:induction false} UnionMembers(allocs: seq<CuMap>, uuid: string)
    ensures uuid in Union(allocs) <==> exists m :: m in allocs && uuid in m
    ensures forall c: nat :: c in At(Union(allocs), uuid) <==> Holders(allocs, uuid, c) > 0
  {
    if allocs != [] {
      var front, last := allocs[..|allocs| - 1], allocs[|allocs| - 1];
      UnionMembers(front, uuid);
      assert allocs == front + [last];
      assert uuid in last ==> last in allocs && uuid in last;
    }
  }

  /** The union meets a set exactly when one of the maps does. */
  lemma {:induction false} UnionMisses(allocs: seq<CuMap>, uuid: string, s: set<nat>)
    ensures At(Union(allocs), uuid) !! s <==> forall i :: 0 <= i < |allocs| ==> At(allocs[i], uuid) !! s
  {
    if allocs != [] {
      var front, last := allocs[..|allocs| - 1], allocs[|allocs| - 1];
      UnionMisses(front, uuid, s);
      MergeMisses(Union(front), last, uuid, s);
      assert forall i :: 0 <= i < |front| ==> front[i] == allocs[i];
    }
  }

  lemma MergeMisses(a: CuMap, b: CuMap, uuid: string, s: set<nat>)
    ensures At(Merge(a, b), uuid) !! s <==> At(a, uuid) !! s && At(b, uuid) !! s
  {
    assert At(Merge(a, b), uuid) == At(a, uuid) + At(b, uuid);
  }

  lemma DisjointAppend(front: seq<CuMap>, last: CuMap)
    ensures PairwiseDisjoint(front + [last]) <==>
      PairwiseDisjoint(front) && forall uuid :: At(Union(front), uuid) !! At(last, uuid)
  {
    hide Union;
    var all := front + [last];
    hide At;
    forall uuid: string
      ensures At(Union(front), uuid) !! At(last, uuid) <==> forall i :: 0 <= i < |front| ==> At(front[i], uuid) !! At(last, uuid)
    {
      UnionMisses(front, uuid, At(last, uuid));
    }
    DisjointPairs(front, last);
  }

  lemma DisjointPairs(front: seq<CuMap>, last: CuMap)
    ensures PairwiseDisjoint(front + [last]) <==>
      PairwiseDisjoint(front) && forall uuid, i :: 0 <= i < |front| ==> At(front[i], uuid) !! At(last, uuid)
  {
    hide At;
    var all := front + [last];
    assert all[|front|] == last && forall i :: 0 <= i < |front| ==> all[i] == front[i];
    if PairwiseDisjoint(all) {
      forall i, j, uuid: string | 0 <= i < j < |front| ensures At(front[i], uuid) !! At(front[j], uuid) {
        assert At(all[i], uuid) !! At(all[j], uuid);
      }
      forall i, uuid: string | 0 <= i < |front| ensures At(front[i], uuid) !! At(last, uuid) {
        assert At(all[i], uuid) !! At(all[|front|], uuid);
      }
    }
  }

  ghost predicate OneHolder(allocs: seq<CuMap>) {
    forall uuid, c: nat :: Holders(allocs, uuid, c) <= 1
  }

  /** last holds no CU that front holds. */
  ghost predicate Fresh(front: seq<CuMap>, last: CuMap) {
    forall uuid, c: nat :: c in At(last, uuid) ==> Holders(front, uuid, c) == 0
  }

  /** The maps are pairwise disjoint exactly when no CU has two holders. */
  lemma {:induction false} DisjointMeansOneHolder(allocs: seq<CuMap>)
    ensures PairwiseDisjoint(allocs) <==> OneHolder(allocs)
  {
    if allocs != [] {
      var front, last := allocs[..|allocs| - 1], allocs[|allocs| - 1];
      assert allocs == front + [last];
      DisjointMeansOneHolder(front);
      DisjointAppend(front, last);
      OneHolderAppend(front, last);
      FreshMeansMiss(front, last);
    }
  }

  lemma OneHolderAppend(front: seq<CuMap>, last: CuMap)
    ensures OneHolder(front + [last]) <==> OneHolder(front) && Fresh(front, last)
  {
    var all := front + [last];
    assert all[..|all| - 1] == front;
    forall uuid, c: nat ensures Holders(all, uuid, c) == Holders(front, uuid, c) + if c in At(last, uuid) then 1 else 0 {}
    hide Holders, At;
    if OneHolder(all) {
      forall uuid, c: nat ensures Holders(front, uuid, c) <= 1 { assert Holders(all, uuid, c) <= 1; }
      forall uuid, c: nat | c in At(last, uuid) ensures Holders(front, uuid, c) == 0 { assert Holders(all, uuid, c) <= 1; }
    }
  }

  lemma FreshMeansMiss(front: seq<CuMap>, last: CuMap)
    ensures Fresh(front, last) <==> forall uuid :: At(Union(front), uuid) !! At(last, uuid)
  {
    hide At, Union, Holders;
    forall uuid: string
      ensures At(Union(front), uuid) !! At(last, uuid) <==> forall c: nat :: c in At(last, uuid) ==> Holders(front, uuid, c) == 0
    {
      UnionMembers(front, uuid);
    }
  }

  /** Disjoint Pods: the union holds exactly as many CUs as the Pods together. */
  lemma {:induction false} UnionSize(allocs: seq<CuMap>, uuid: string)
    requires PairwiseDisjoint(allocs)
    ensures |At(Union(allocs), uuid)| == SumSizes(allocs, uuid)
  {
    hide PairwiseDisjoint;
    if allocs != [] {
      var front, last := allocs[..|allocs| - 1], allocs[|allocs| - 1];
      assert allocs == front + [last];
      DisjointAppend(front, last);
      UnionSize(front, uuid);
      MergeSize(Union(front), last, uuid);
    }
  }

  lemma MergeSize(a: CuMap, b: CuMap, uuid: string)
    requires At(a, uuid) !! At(b, uuid)
    ensures |At(Merge(a, b), uuid)| == |At(a, uuid)| + |At(b, uuid)|
  {
    assert At(Merge(a, b), uuid) == At(a, uuid) + At(b, uuid);
    DisjointUnionSize(At(a, uuid), At(b, uuid));
  }

  // ---------- order does not matter ----------

  lemma {:induction false} HoldersRemove(b: seq<CuMap>, k: nat, uuid: string, c: nat)
    requires k < |b|
    ensures Holders(b, uuid, c) == Holders(Without(b, k), uuid, c) + if c in At(b[k], uuid) then 1 else 0
  {
    if k == |b| - 1 {
      WithoutLast(b);
    } else {
      HoldersRemove(b[..|b| - 1], k, uuid, c);
      WithoutFront(b, k);
      assert Without(b, k)[..|b| - 2] == Without(b[..|b| - 1], k);
    }
  }

  lemma {:induction false} HoldersPermute(a: seq<CuMap>, b: seq<CuMap>, uuid: string, c: nat)
    requires multiset(a) == multiset(b)
    ensures Holders(a, uuid, c) == Holders(b, uuid, c)
  {
    SameLength(a, b);
    if a != [] {
      var k := LastOccurs(a, b);
      HoldersPermute(a[..|a| - 1], Without(b, k), uuid, c);
      HoldersRemove(b, k, uuid, c);
    }
  }

  lemma SameMembers(a: seq<CuMap>, b: seq<CuMap>)
    requires multiset(a) == multiset(b)
    ensures forall m: CuMap :: m in a <==> m in b
  {
    forall m: CuMap ensures m in a <==> m in b {
      assert m in a <==> m in multiset(a);
      assert m in b <==> m in multiset(b);
    }
  }

  lemma MapOrderIrrelevant(a: seq<CuMap>, b: seq<CuMap>)
    requires multiset(a) == multiset(b)
    ensures PairwiseDisjoint(a) <==> PairwiseDisjoint(b)
    ensures Union(a) == Union(b)
  {
    hide PairwiseDisjoint, Union, Holders;
    SameMembers(a, b);
    forall uuid, c: nat ensures Holders(a, uuid, c) == Holders(b, uuid, c) { HoldersPermute(a, b, uuid, c); }
    DisjointMeansOneHolder(a);
    DisjointMeansOneHolder(b);
    if OneHolder(a) { forall uuid, c: nat ensures Holders(b, uuid, c) <= 1 { assert Holders(a, uuid, c) <= 1; } }
    if OneHolder(b) { forall uuid, c: nat ensures Holders(a, uuid, c) <= 1 { assert Holders(b, uuid, c) <= 1; } }
    forall uuid: string ensures uuid in Union(a) <==> uuid in Union(b) {
      UnionMembers(a, uuid);
      UnionMembers(b, uuid);
    }
    forall uuid: string | uuid in Union(a) ensures Union(a)[uuid] == Union(b)[uuid] {
      UnionMembers(a, uuid);
      UnionMembers(b, uuid);
      assert At(Union(a), uuid) == At(Union(b), uuid);
    }
  }

  lemma AllCusRemove(cache: Cache, pods: seq<PodRecord>, k: nat)
    requires k < |pods|
    ensures AllDecode(cache, pods) <==> AllDecode(cache, Without(pods, k)) && PodCus(cache, pods[k]).Some?
    ensures AllDecode(cache, pods) ==>
      multiset(AllCus(cache, pods)) == multiset(AllCus(cache, Without(pods, k))) + multiset{PodCus(cache, pods[k]).value}
  {
    hide PodCus;
    var rest := Without(pods, k);
    assert forall i :: 0 <= i < k ==> rest[i] == pods[i];
    assert forall i :: k < i < |pods| ==> rest[i - 1] == pods[i];
    if AllDecode(cache, pods) {
      assert AllCus(cache, rest) == Without(AllCus(cache, pods), k);
      WithoutMultiset(AllCus(cache, pods), k);
    } else if AllDecode(cache, rest) && PodCus(cache, pods[k]).Some? {
      forall i | 0 <= i < |pods| ensures PodCus(cache, pods[i]).Some? {
        if i != k { assert pods[i] == rest[if i < k then i else i - 1]; }
      }
    }
  }

  lemma {:induction false} SamePods(cache: Cache, a: seq<PodRecord>, b: seq<PodRecord>)
    requires multiset(a) == multiset(b)
    ensures AllDecode(cache, a) <==> AllDecode(cache, b)
    ensures AllDecode(cache, a) ==> multiset(AllCus(cache, a)) == multiset(AllCus(cache, b))
  {
    hide PodCus, AllDecode, AllCus;
    SameLength(a, b);
    if a != [] {
      var k := LastOccurs(a, b);
      WithoutLast(a);
      SamePods(cache, a[..|a| - 1], Without(b, k));
      AllCusRemove(cache, a, |a| - 1);
      AllCusRemove(cache, b, k);
    } else {
      assert a == b;
    }
  }

  /** Neither the verdict nor the result of a rebuild depends on the order in which the Pods are listed. */
  lemma OrderIrrelevant(cache: Cache, a: seq<PodRecord>, b: seq<PodRecord>)
    requires multiset(a) == multiset(b)
    ensures AllDecode(cache, a) <==> AllDecode(cache, b)
    ensures AllDecode(cache, a) ==> (PairwiseDisjoint(AllCus(cache, a)) <==> PairwiseDisjoint(AllCus(cache, b)))
    ensures AllDecode(cache, a) ==> Union(AllCus(cache, a)) == Union(AllCus(cache, b))
  {
    hide PodCus, AllDecode, AllCus, PairwiseDisjoint, Union;
    SamePods(cache, a, b);
    if AllDecode(cache, a) { MapOrderIrrelevant(AllCus(cache, a), AllCus(cache, b)); }
  }
}
