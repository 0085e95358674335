/** The bitmaps behind an occupancy: parsing one Pod's annotation, and rebuilding a node from its Pod list. */
module CuSnapshot {
  import opened CuAllocation
  import opened CuList
  import opened DeviceCache
  import opened Occupancy
  import opened Words
  import opened Wrappers

  /** One bitmap per device UUID, shared by reference and updated in place. */
  type Snapshot = map<string, array<Word>>

  /** Every bitmap has its device's size, and no two devices share one. */
  ghost predicate Proper(cache: Cache, m: Snapshot) {
    && (forall uuid :: uuid in m ==> TotalCUs(cache, uuid).Some? && m[uuid].Length == WordsFor(TotalCUs(cache, uuid).value))
    && (forall u, v :: u in m && v in m && u != v ==> m[u] != m[v])
  }

  ghost function View(m: Snapshot): CuMap
    reads m.Values
  {
    map uuid | uuid in m :: Cus(m[uuid][..])
  }

  /** No set names a CU its device does not have. */
  ghost predicate InRange(cache: Cache, m: CuMap) {
    forall uuid, c: nat :: uuid in m && c in m[uuid] ==> TotalCUs(cache, uuid).Some? && c < TotalCUs(cache, uuid).value
  }

  lemma DecodedInRange(cache: Cache, lists: map<string, string>)
    requires Decodable(cache, lists)
    ensures InRange(cache, ListCus(cache, lists))
  {
    forall uuid, c: nat | uuid in lists && c in ListCus(cache, lists)[uuid]
      ensures TotalCUs(cache, uuid).Some? && c < TotalCUs(cache, uuid).value
    {
      ParsedInRange(lists[uuid], TotalCUs(cache, uuid).value);
    }
  }

  /** The entries parsed so far: their bitmaps, each of its device's size, hold what their lists denote. */
  ghost predicate Parsed(cache: Cache, lists: map<string, string>, out: Snapshot)
    reads out.Values
  {
    && (forall uuid :: uuid in out ==> uuid in lists && EntryCus(cache, uuid, lists[uuid]) == Some(Cus(out[uuid][..])))
    && Proper(cache, out)
  }

  lemma ParsedNext(cache: Cache, lists: map<string, string>, out: Snapshot, uuid: string, a: array<Word>)
    requires Parsed(cache, lists, out) && uuid in lists && a !in out.Values
    requires TotalCUs(cache, uuid).Some? && a.Length == WordsFor(TotalCUs(cache, uuid).value)
    requires ParseIdList(lists[uuid], TotalCUs(cache, uuid).value) == Some(Cus(a[..]))
    ensures Parsed(cache, lists, out[uuid := a])
  {
    hide TotalCUs, ParseIdList, Cus;
    assert forall u :: u in out ==> out[u] in out.Values;
  }

  lemma ParsedAll(cache: Cache, lists: map<string, string>, out: Snapshot)
    requires Parsed(cache, lists, out) && out.Keys == lists.Keys
    ensures Readable(cache, lists) && Proper(cache, out) && View(out) == ListCus(cache, lists)
  {
    hide TotalCUs, ParseIdList, Cus, Proper;
    forall uuid | uuid in lists ensures EntryCus(cache, uuid, lists[uuid]).Some? { assert uuid in out; }
  }

  lemma Unreadable(cache: Cache, lists: map<string, string>, uuid: string)
    requires uuid in lists && EntryCus(cache, uuid, lists[uuid]).None?
    ensures !Decodable(cache, lists)
  {
    hide EntryCus;
  }

  /** The entries are visited in any order. */
  method ParseCuAllocation(cache: Cache, lists: map<string, string>) returns (r: Result<Snapshot>)
    ensures r.Success? <==> Decodable(cache, lists)
    ensures r.Success? ==> Proper(cache, r.value) && View(r.value) == ListCus(cache, lists)
    ensures r.Success? ==> forall a :: a in r.value.Values ==> fresh(a)
  {
    hide Lookup, ParseIdList, Cus, Parsed, TotalCUs, Readable, Proper, View;
    if lists == map[] { return Failure("no entries"); }
    var out: Snapshot := map[];
    var todo := lists.Keys;
    NothingParsed(cache, lists);
    while todo != {}
      invariant todo <= lists.Keys && out.Keys == lists.Keys - todo
      invariant "" !in out
      invariant Parsed(cache, lists, out)
      invariant forall a :: a in out.Values ==> fresh(a)
    {
      var uuid :| uuid in todo;
      if uuid == "" { return Failure("empty device uuid key"); }
      var total := TotalCUs(cache, uuid);
      if total.None? { Unreadable(cache, lists, uuid); return Failure("device total CU lookup failed"); }
      var alloc := IdListToAllocation(lists[uuid], total.value);
      if alloc.Failure? { Unreadable(cache, lists, uuid); return Failure(alloc.error); }
      ParsedNext(cache, lists, out, uuid, alloc.value);
      assert forall u :: u in out ==> out[u] in out.Values;
      out := out[uuid := alloc.value];
      todo := todo - {uuid};
    }
    ParsedAll(cache, lists, out);
    return Success(out);
  }

  lemma NothingParsed(cache: Cache, lists: map<string, string>)
    ensures Parsed(cache, lists, map[])
  {
  }

  /** The CU-by-CU overlap scan of buildCUAllocations. */
  method Overlaps(allocation: array<Word>, current: array<Word>, totalCUs: nat) returns (overlap: bool)
    requires WordsFor(totalCUs) <= allocation.Length && WordsFor(totalCUs) <= current.Length
    ensures overlap <==> exists c: nat :: c < totalCUs && c in Cus(allocation[..]) && c in Cus(current[..])
  {
    for cu := 0 to totalCUs
      invariant forall c: nat :: c < cu ==> !(c in Cus(allocation[..]) && c in Cus(current[..]))
    {
      var word, bit := cu / WORD_BITS, cu % WORD_BITS;
      MaskTestsBit(allocation[word], bit);
      MaskTestsBit(current[word], bit);
      assert cu in Cus(allocation[..]) <==> IsSet(allocation[..], cu);
      assert cu in Cus(current[..]) <==> IsSet(current[..], cu);
      if And(allocation[word], Pow2(bit)) == 0 { continue; }
      if And(current[word], Pow2(bit)) != 0 { return true; }
    }
    return false;
  }

  /** Gives a device that has no bitmap yet an empty one. */
  method EnsureDevice(cache: Cache, snapshot: Snapshot, uuid: string) returns (snap: Snapshot)
    requires Proper(cache, snapshot) && TotalCUs(cache, uuid).Some?
    ensures Proper(cache, snap) && uuid in snap
    ensures forall a :: a in snap.Values ==> a in snapshot.Values || fresh(a)
    ensures View(snap) == View(snapshot)[uuid := At(View(snapshot), uuid)]
  {
    hide Lookup, Cus;
    snap := snapshot;
    if uuid !in snapshot {
      var created := NewAllocation(TotalCUs(cache, uuid).value);
      snap := snapshot[uuid := created.value];
    }
  }

  lemma ViewEntries(m: Snapshot)
    ensures View(m).Keys == m.Keys
    ensures forall uuid :: uuid in m ==> View(m)[uuid] == Cus(m[uuid][..])
  {
  }

  /** A write to one bitmap changes that device's entry alone. */
  lemma ViewUpdate(m: Snapshot, uuid: string, before: CuMap)
    requires uuid in m && forall u, v :: u in m && v in m && u != v ==> m[u] != m[v]
    requires before.Keys == m.Keys
    requires forall u :: u in m && u != uuid ==> before[u] == Cus(m[u][..])
    ensures View(m) == before[uuid := Cus(m[uuid][..])]
  {
    hide Cus;
  }

  /** Adds one device's share of a Pod to the node; fails when a CU is already taken. */
  method AddShare(cache: Cache, result: Snapshot, uuid: string, allocation: array<Word>) returns (r: Result<Snapshot>)
    requires Proper(cache, result) && allocation !in result.Values
    requires TotalCUs(cache, uuid).Some? && allocation.Length == WordsFor(TotalCUs(cache, uuid).value)
    requires forall c: nat :: c in Cus(allocation[..]) ==> c < TotalCUs(cache, uuid).value
    modifies result.Values
    ensures r.Success? <==> old(At(View(result), uuid)) !! old(Cus(allocation[..]))
    ensures r.Success? ==> Proper(cache, r.value)
    ensures r.Success? ==> forall a :: a in r.value.Values ==> a in result.Values || fresh(a)
    ensures r.Success? ==> View(r.value) == old(View(result))[uuid := old(At(View(result), uuid)) + old(Cus(allocation[..]))]
  {
    hide Lookup, Cus, TotalCUs, View;
    var total := TotalCUs(cache, uuid).value;
    var updated := EnsureDevice(cache, result, uuid);
    ViewEntries(updated);
    ghost var before := View(updated);
    var current := updated[uuid];
    assert current in updated.Values;
    ghost var share := Cus(allocation[..]);
    var overlap := Overlaps(allocation, current, total);
    if overlap { return Failure("CU allocation overlap"); }
    RangeKeeps(share, total);
    var added := AddAllocation(current, total, allocation);
    // the scan leaves AddAllocation nothing to refuse
    assert added.Pass?;
    ViewUpdate(updated, uuid, before);
    return Success(updated);
  }

  lemma RangeKeeps(s: set<nat>, total: nat)
    requires forall c: nat :: c in s ==> c < total
    ensures s * Interval(0, WORD_BITS * WordsFor(total)) == s
  {
  }

  /** Adds a Pod's parsed annotation, device by device in any order. */
  method AddPod(cache: Cache, result: Snapshot, allocations: Snapshot) returns (r: Result<Snapshot>)
    requires Proper(cache, result) && Proper(cache, allocations) && result.Values !! allocations.Values
    requires InRange(cache, View(allocations))
    modifies result.Values
    ensures r.Success? <==> forall uuid :: uuid in allocations ==> old(At(View(result), uuid)) !! old(At(View(allocations), uuid))
    ensures r.Success? ==> Proper(cache, r.value) && View(r.value) == old(Merge(View(result), View(allocations)))
    ensures r.Success? ==> forall a :: a in r.value.Values ==> a in result.Values || fresh(a)
  {
    hide Lookup, TotalCUs, Cus, View, Proper, InRange, MergeKeys;
    ghost var base, share := View(result), View(allocations);
    ViewKeys(allocations);
    MergeKeysEnds(base, share);
    var updated := result;
    var todo := allocations.Keys;
    while todo != {}
      invariant todo <= allocations.Keys
      invariant Proper(cache, updated)
      invariant forall a :: a in updated.Values ==> a in result.Values || fresh(a)
      invariant updated.Values !! allocations.Values
      invariant View(allocations) == share
      invariant View(updated) == MergeKeys(base, share, allocations.Keys - todo)
      invariant forall u :: u in allocations && u !in todo ==> At(base, u) !! At(share, u)
    {
      var uuid :| uuid in todo;
      var done := allocations.Keys - todo;
      ShareInRange(cache, allocations, uuid);
      MergeKeysStep(base, share, done, uuid);
      assert allocations.Keys - (todo - {uuid}) == done + {uuid};
      var step := AddShare(cache, updated, uuid, allocations[uuid]);
      if step.Failure? { return Failure(step.error); }
      updated := step.value;
      todo := todo - {uuid};
    }
    assert allocations.Keys - todo == allocations.Keys;
    return Success(updated);
  }

  lemma ViewKeys(m: Snapshot)
    ensures View(m).Keys == m.Keys
  {
  }

  lemma ShareInRange(cache: Cache, m: Snapshot, uuid: string)
    requires Proper(cache, m) && InRange(cache, View(m)) && uuid in m
    ensures uuid in View(m) && View(m)[uuid] == Cus(m[uuid][..])
    ensures TotalCUs(cache, uuid).Some? && m[uuid].Length == WordsFor(TotalCUs(cache, uuid).value)
    ensures forall c: nat :: c in Cus(m[uuid][..]) ==> c < TotalCUs(cache, uuid).value
  {
    hide Cus, TotalCUs;
    assert View(m)[uuid] == Cus(m[uuid][..]);
  }

  /** a with the entries of b under keys merged in. */
  ghost function MergeKeys(a: CuMap, b: CuMap, keys: set<string>): CuMap {
    map uuid | uuid in a.Keys + keys :: At(a, uuid) + if uuid in keys then At(b, uuid) else {}
  }

  lemma MergeKeysEnds(a: CuMap, b: CuMap)
    ensures MergeKeys(a, b, {}) == a && MergeKeys(a, b, b.Keys) == Merge(a, b)
    ensures b.Keys - b.Keys == {}
  {
    forall uuid: string | uuid in a ensures MergeKeys(a, b, {})[uuid] == a[uuid] {}
    forall uuid: string | uuid in a.Keys + b.Keys ensures MergeKeys(a, b, b.Keys)[uuid] == Merge(a, b)[uuid] {}
  }

  lemma MergeKeysStep(a: CuMap, b: CuMap, keys: set<string>, uuid: string)
    requires uuid in b && uuid !in keys
    ensures At(MergeKeys(a, b, keys), uuid) == At(a, uuid)
    ensures MergeKeys(a, b, keys)[uuid := At(a, uuid) + b[uuid]] == MergeKeys(a, b, keys + {uuid})
  {
    forall u: string | u in MergeKeys(a, b, keys + {uuid})
      ensures MergeKeys(a, b, keys)[uuid := At(a, uuid) + b[uuid]][u] == MergeKeys(a, b, keys + {uuid})[u] {}
  }

  /**
   * Reconstructs the node from its Pods. It succeeds exactly when every live annotation decodes and no two live Pods
   * share a CU, and then holds their union in bitmaps of its own.
   */
  method BuildCuAllocations(cache: Cache, pods: seq<PodRecord>) returns (r: Result<Snapshot>)
    ensures r.Success? <==> AllDecode(cache, pods) && PairwiseDisjoint(AllCus(cache, pods))
    ensures r.Success? ==> forall i :: 0 <= i < |pods| && !pods[i].terminated ==>
      pods[i].annotation.Blank? || ListsKnownCus(cache, pods[i].annotation)
    ensures r.Success? ==> Proper(cache, r.value) && View(r.value) == Union(AllCus(cache, pods))
    ensures r.Success? ==> forall a :: a in r.value.Values ==> fresh(a)
  {
    DecodesExactly(cache, pods);
    hide PairwiseDisjoint, Union, Decodable, ListCus, Lookup, Cus, AllDecode, AllCus, TotalCUs, InRange, ListsKnownCus;
    var result: Snapshot := map[];
    NoPods(cache);
    assert pods[..0] == [];
    for i := 0 to |pods|
      invariant AllDecode(cache, pods[..i]) && PairwiseDisjoint(AllCus(cache, pods[..i]))
      invariant Proper(cache, result) && View(result) == Union(AllCus(cache, pods[..i]))
      invariant forall a :: a in result.Values ==> fresh(a)
    {
      PodAppends(cache, pods[..i], pods[i]);
      assert pods[..i] + [pods[i]] == pods[..i + 1];
      if pods[i].terminated || pods[i].annotation.Blank? {
        MergeNothing(View(result));
        continue;
      }
      if pods[i].annotation.Malformed? { PrefixFails(cache, pods, i + 1); return Failure("parse JSON"); }
      var parsed := ParseCuAllocation(cache, pods[i].annotation.lists);
      if parsed.Failure? { PrefixFails(cache, pods, i + 1); return Failure(parsed.error); }
      DecodedInRange(cache, pods[i].annotation.lists);
      var was := result;
      var step := AddPod(cache, was, parsed.value);
      if step.Failure? { PrefixFails(cache, pods, i + 1); return Failure(step.error); }
      result := step.value;
    }
    assert pods[..|pods|] == pods;
    return Success(result);
  }

  lemma NoPods(cache: Cache)
    ensures AllDecode(cache, []) && PairwiseDisjoint(AllCus(cache, [])) && Union(AllCus(cache, [])) == map[]
  {
  }

  lemma MergeNothing(m: CuMap)
    ensures Merge(m, map[]) == m
    ensures forall uuid :: At(map[], uuid) == {}
  {
    forall uuid: string | uuid in m ensures Merge(m, map[])[uuid] == m[uuid] {
      assert At(m, uuid) + At(map[], uuid) == m[uuid];
    }
  }

  lemma PodAppends(cache: Cache, pods: seq<PodRecord>, pod: PodRecord)
    requires AllDecode(cache, pods)
    ensures AllDecode(cache, pods + [pod]) <==> PodCus(cache, pod).Some?
    ensures PodCus(cache, pod).Some? ==>
      var before, share := AllCus(cache, pods), PodCus(cache, pod).value;
      && AllCus(cache, pods + [pod]) == before + [share]
      && Union(before + [share]) == Merge(Union(before), share)
      && (PairwiseDisjoint(before + [share]) <==> PairwiseDisjoint(before) && forall uuid :: At(Union(before), uuid) !! At(share, uuid))
  {
    hide PodCus;
    var all := pods + [pod];
    assert all[|pods|] == pod && forall i :: 0 <= i < |pods| ==> all[i] == pods[i];
    if PodCus(cache, pod).Some? {
      var before, share := AllCus(cache, pods), PodCus(cache, pod).value;
      assert AllCus(cache, pods + [pod]) == before + [share];
      assert (before + [share])[..|before|] == before;
      DisjointAppend(before, share);
    }
  }

  /** A prefix that does not decode, or overlaps, already decides the verdict. */
  lemma PrefixFails(cache: Cache, pods: seq<PodRecord>, n: nat)
    requires n <= |pods|
    requires !(AllDecode(cache, pods[..n]) && PairwiseDisjoint(AllCus(cache, pods[..n])))
    ensures !(AllDecode(cache, pods) && PairwiseDisjoint(AllCus(cache, pods)))
  {
    hide PodCus, At;
    if AllDecode(cache, pods) && PairwiseDisjoint(AllCus(cache, pods)) {
      assert forall i :: 0 <= i < n ==> pods[..n][i] == pods[i];
      var all, some := AllCus(cache, pods), AllCus(cache, pods[..n]);
      assert forall i :: 0 <= i < n ==> some[i] == all[i];
    }
  }
}
