/** The CU part of one Allocate call: taking CUs device by device, the mask text, and the Pod's persisted share. */
module AllocateCall {
  import opened Arith
  import opened CuAllocation
  import opened CuList
  import opened CuSnapshot
  import opened DeviceAnnotation
  import opened DeviceCache
  import opened Occupancy
  import opened Text
  import opened Words
  import opened Wrappers

  /** What one requested device gets: CUs of its own, or, for a memory-only slice, a share of all of them. */
  datatype Grant = Exclusive(uuid: string, cus: set<nat>) | Shared(uuid: string)

  /** The grant for device d where view is taken; unitOf is cuMaskUnit. None when the call fails here. */
  function GrantOne(cache: Cache, unitOf: string -> int, view: CuMap, d: ContainerDevice): Option<Grant> {
    var total := TotalCUs(cache, d.uuid);
    if total.None? then None
    else if d.usedcores == 0 && !IsWholeGPU(cache, [d]) then Some(Shared(d.uuid))
    else
      var cores := if d.usedcores == 0 then total.value else d.usedcores;
      var delta := TakeCus(At(view, d.uuid), total.value, cores, unitOf(d.uuid));
      if delta.None? then None else Some(Exclusive(d.uuid, delta.value))
  }

  function GrantCus(g: Grant): set<nat> {
    if g.Exclusive? then g.cus else {}
  }

  /** A grant of CUs has some, and they lie on a registered device. */
  predicate SoundGrant(cache: Cache, g: Grant) {
    && TotalCUs(cache, g.uuid).Some?
    && (g.Exclusive? ==> g.cus != {} && forall c: nat :: c in g.cus ==> c < TotalCUs(cache, g.uuid).value)
  }

  /** The occupancy after a grant; the device gets an entry even when it takes nothing. */
  function AfterGrant(view: CuMap, g: Grant): CuMap {
    view[g.uuid := At(view, g.uuid) + GrantCus(g)]
  }

  function AfterGrants(view: CuMap, grants: seq<Grant>): CuMap {
    if grants == [] then view else AfterGrant(AfterGrants(view, grants[..|grants| - 1]), grants[|grants| - 1])
  }

  /** The Pod's list entry after a grant: the old share, if any, merged with the new CUs. None when that fails. */
  function RecordOne(cache: Cache, list: map<string, string>, g: Grant): Option<map<string, string>> {
    var total := TotalCUs(cache, g.uuid);
    if g.Shared? || total.None? then Some(list)
    else if g.uuid in list && TrimSpace(list[g.uuid]) != "" then
      var old_ := ParseIdList(list[g.uuid], total.value);
      if old_.None? || old_.value * g.cus != {} then None
      else Some(list[g.uuid := IdListText(old_.value + g.cus, total.value)])
    else Some(list[g.uuid := IdListText(g.cus, total.value)])
  }

  /** The HSA_CU_MASK part of container device i. */
  function MaskText(cache: Cache, i: nat, g: Grant): string {
    var total := if TotalCUs(cache, g.uuid).Some? then TotalCUs(cache, g.uuid).value else 0;
    Itoa(i) + ":" + if g.Exclusive? then IdListText(g.cus, total) else "0-" + Itoa(total - 1)
  }

  /** The devices of a request in order, each seeing what the ones before it took. */
  function Process(cache: Cache, unitOf: string -> int, view: CuMap, list: map<string, string>, devreq: Slot)
    : (r: Option<(seq<Grant>, map<string, string>)>)
    ensures r.Some? ==> |r.value.0| == |devreq|
  {
    if devreq == [] then Some(([], list)) else
    var front := Process(cache, unitOf, view, list, devreq[..|devreq| - 1]);
    if front.None? then None else
    var g := GrantOne(cache, unitOf, AfterGrants(view, front.value.0), devreq[|devreq| - 1]);
    if g.None? then None else
    var recorded := RecordOne(cache, front.value.1, g.value);
    if recorded.None? then None else Some((front.value.0 + [g.value], recorded.value))
  }

  function Masks(cache: Cache, grants: seq<Grant>): seq<string> {
    seq(|grants|, i requires 0 <= i < |grants| => MaskText(cache, i, grants[i]))
  }

  /** HSA_CU_MASK; a request without devices leaves it unset. */
  function MaskValue(cache: Cache, grants: seq<Grant>): Option<string> {
    if grants == [] then None else Some(Join(Masks(cache, grants), ';'))
  }

  /** True when some device of the request is not taken whole: then the call is a slice and must be persisted. */
  predicate Sliced(cache: Cache, devreq: Slot) {
    exists i :: 0 <= i < |devreq| && !IsWholeGPU(cache, [devreq[i]])
  }

  // ---------- the imperative code ----------

  datatype Served = Served(snapshot: Snapshot, list: map<string, string>, mask: string, sliced: bool)

  /** One round of the device loop. */
  method ServeDevice(cache: Cache, unitOf: string -> int, snapshot: Snapshot, list: map<string, string>, d: ContainerDevice, i: nat)
    returns (r: Result<Served>)
    requires Proper(cache, snapshot)
    modifies snapshot.Values
    ensures var g := GrantOne(cache, unitOf, old(View(snapshot)), d);
      && (r.Success? <==> g.Some? && RecordOne(cache, list, g.value).Some?)
      && (r.Success? ==>
            && Proper(cache, r.value.snapshot)
            && (forall a :: a in r.value.snapshot.Values ==> a in snapshot.Values || fresh(a))
            && View(r.value.snapshot) == AfterGrant(old(View(snapshot)), g.value)
            && r.value.list == RecordOne(cache, list, g.value).value
            && r.value.mask == MaskText(cache, i, g.value)
            && r.value.sliced == !IsWholeGPU(cache, [d]))
  {
    hide Lookup, Cus, IsWholeGPU, IdListText, Itoa, View, Proper, RecordOne, GrantOne, AfterGrant;
    ghost var g := GrantOne(cache, unitOf, View(snapshot), d);
    var taken := GrantDevice(cache, unitOf, snapshot, d);
    if taken.Failure? { return Failure(taken.error); }
    var Taken(snap, delta) := taken.value;
    GrantSound(cache, unitOf, old(View(snapshot)), d);
    var totalCUs := TotalCUs(cache, d.uuid).value;
    var sliced := !IsWholeGPU(cache, [d]);
    if delta.None? {
      SharedKeepsList(cache, list, g.value);
      return Success(Served(snap, list, Itoa(i) + ":" + ("0-" + Itoa(totalCUs - 1)), sliced));
    }
    var cuList := AllocationToIdList(delta.value, totalCUs);
    var recorded := RecordShare(cache, list, d.uuid, cuList, delta.value, totalCUs);
    if recorded.Failure? { return Failure(recorded.error); }
    return Success(Served(snap, recorded.value, Itoa(i) + ":" + cuList, sliced));
  }

  lemma SharedKeepsList(cache: Cache, list: map<string, string>, g: Grant)
    requires g.Shared?
    ensures RecordOne(cache, list, g) == Some(list)
  {
  }

  /** The snapshot after a grant, and the delta bitmap when CUs were taken. */
  datatype Taken = Taken(snapshot: Snapshot, delta: Option<array<Word>>)

  /** Looks the device up and takes its CUs; a memory-only slice takes none. */
  method GrantDevice(cache: Cache, unitOf: string -> int, snapshot: Snapshot, d: ContainerDevice) returns (r: Result<Taken>)
    requires Proper(cache, snapshot)
    modifies snapshot.Values
    ensures var g := GrantOne(cache, unitOf, old(View(snapshot)), d);
      && (r.Success? <==> g.Some?)
      && (r.Success? ==>
            && Proper(cache, r.value.snapshot)
            && (forall a :: a in r.value.snapshot.Values ==> a in snapshot.Values || fresh(a))
            && View(r.value.snapshot) == AfterGrant(old(View(snapshot)), g.value)
            && (r.value.delta.Some? <==> g.value.Exclusive?)
            && (r.value.delta.Some? ==>
                  && fresh(r.value.delta.value)
                  && r.value.delta.value.Length == WordsFor(TotalCUs(cache, d.uuid).value)
                  && Cus(r.value.delta.value[..]) == g.value.cus))
  {
    hide Lookup, Cus, TakeCus, IsWholeGPU, View, Proper;
    ghost var view := View(snapshot);
    var total := TotalCUs(cache, d.uuid);
    if total.None? { return Failure("device not found"); }
    var snap := EnsureDevice(cache, snapshot, d.uuid);
    var cores := d.usedcores;
    if cores == 0 {
      if !IsWholeGPU(cache, [d]) {
        assert At(view, d.uuid) + {} == At(view, d.uuid);
        return Success(Taken(snap, None));
      }
      cores := total.value;
    }
    var delta := TakeExclusive(cache, snap, d.uuid, total.value, cores, unitOf(d.uuid));
    if delta.Failure? { return Failure("allocate cu"); }
    return Success(Taken(snap, Some(delta.value)));
  }

  /** AllocateN on the shared bitmap of a device: the snapshot sees what was taken. */
  method TakeExclusive(cache: Cache, snap: Snapshot, uuid: string, totalCUs: nat, cores: int, unit: int) returns (delta: Result<array<Word>>)
    requires Proper(cache, snap) && uuid in snap && TotalCUs(cache, uuid) == Some(totalCUs)
    modifies snap.Values
    ensures var taken := TakeCus(old(At(View(snap), uuid)), totalCUs, cores, unit);
      && (delta.Success? <==> taken.Some?)
      && (delta.Success? ==>
            && fresh(delta.value) && delta.value.Length == WordsFor(totalCUs)
            && Cus(delta.value[..]) == taken.value
            && View(snap) == old(View(snap))[uuid := old(At(View(snap), uuid)) + taken.value])
  {
    hide Lookup, Cus, TakeCus, View;
    ViewEntries(snap);
    ghost var before := View(snap);
    delta := AllocateN(snap[uuid], totalCUs, cores, unit);
    if delta.Success? { ViewUpdate(snap, uuid, before); }
  }

  /** Writes the Pod's new share of a device: merged with the share it already has, or alone. */
  method RecordShare(cache: Cache, list: map<string, string>, uuid: string, cuList: string, delta: array<Word>, totalCUs: nat)
    returns (r: Result<map<string, string>>)
    requires TotalCUs(cache, uuid) == Some(totalCUs) && delta.Length >= WordsFor(totalCUs)
    requires forall c: nat :: c in Cus(delta[..]) ==> c < totalCUs
    requires cuList == IdListText(Cus(delta[..]), totalCUs)
    ensures var recorded := RecordOne(cache, list, Exclusive(uuid, Cus(delta[..])));
      (r.Success? <==> recorded.Some?) && (r.Success? ==> r.value == recorded.value)
  {
    hide Lookup, Cus, ParseIdList, IdListText, TrimLeft, TrimRight;
    if uuid in list && TrimSpace(list[uuid]) != "" {
      var oldAllocation := IdListToAllocation(list[uuid], totalCUs);
      if oldAllocation.Failure? { return Failure("decode existing pod cu allocation"); }
      RangeKeeps(Cus(delta[..]), totalCUs);
      var merged := AddAllocation(oldAllocation.value, totalCUs, delta);
      if merged.Fail? { return Failure("merge pod cu allocation"); }
      var text := AllocationToIdList(oldAllocation.value, totalCUs);
      return Success(list[uuid := text]);
    }
    return Success(list[uuid := cuList]);
  }

  datatype CallResult = CallResult(snapshot: Snapshot, list: map<string, string>, mask: Option<string>, sliced: bool)

  /** The device loop of one container request, on the snapshot and Pod list the call started with. */
  method AllocateDevices(cache: Cache, unitOf: string -> int, snapshot: Snapshot, list: map<string, string>, devreq: Slot)
    returns (r: Result<CallResult>)
    requires Proper(cache, snapshot)
    modifies snapshot.Values
    ensures var p := Process(cache, unitOf, old(View(snapshot)), list, devreq);
      && (r.Success? <==> p.Some?)
      && (r.Success? ==>
            && View(r.value.snapshot) == AfterGrants(old(View(snapshot)), p.value.0)
            && r.value.list == p.value.1
            && r.value.mask == MaskValue(cache, p.value.0)
            && (r.value.mask.None? <==> devreq == [])
            && (r.value.sliced <==> Sliced(cache, devreq))
            && (r.value.sliced <==> exists i :: 0 <= i < |devreq| && CutsDevice(cache, devreq[i])))
  {
    StartOfCall(cache, unitOf, View(snapshot), list);
    hide GrantOne, RecordOne, IsWholeGPU, Proper, View, MaskText, Process, AfterGrants, Masks, AfterGrant;
    var snap, current := snapshot, list;
    var hsaCuSets: seq<string> := [];
    var sliced := false;
    ghost var view := View(snapshot);
    ghost var grants: seq<Grant> := [];
    assert devreq[..0] == [];
    for i := 0 to |devreq|
      invariant Process(cache, unitOf, view, list, devreq[..i]) == Some((grants, current))
      invariant Proper(cache, snap) && View(snap) == AfterGrants(view, grants)
      invariant forall a :: a in snap.Values ==> a in snapshot.Values || fresh(a)
      invariant hsaCuSets == Masks(cache, grants)
      invariant sliced <==> exists j :: 0 <= j < i && !IsWholeGPU(cache, [devreq[j]])
    {
      ProcessAppend(cache, unitOf, view, list, devreq[..i], devreq[i]);
      assert devreq[..i] + [devreq[i]] == devreq[..i + 1];
      ghost var g := GrantOne(cache, unitOf, View(snap), devreq[i]);
      var served := ServeDevice(cache, unitOf, snap, current, devreq[i], i);
      if served.Failure? {
        ProcessPrefixFails(cache, unitOf, view, list, devreq, i + 1);
        return Failure(served.error);
      }
      snap, current := served.value.snapshot, served.value.list;
      AfterGrantsAppend(view, grants, g.value);
      MasksAppend(cache, grants, g.value);
      grants := grants + [g.value];
      hsaCuSets := hsaCuSets + [served.value.mask];
      sliced := sliced || served.value.sliced;
    }
    assert devreq[..|devreq|] == devreq;
    SlicedExactly(cache, unitOf, view, list, devreq);
    var mask := if |devreq| > 0 then Some(Join(hsaCuSets, ';')) else None;
    return Success(CallResult(snap, current, mask, sliced));
  }

  lemma StartOfCall(cache: Cache, unitOf: string -> int, view: CuMap, list: map<string, string>)
    ensures Process(cache, unitOf, view, list, []) == Some(([], list))
    ensures AfterGrants(view, []) == view && Masks(cache, []) == []
  {
  }

  lemma ProcessAppend(cache: Cache, unitOf: string -> int, view: CuMap, list: map<string, string>, devreq: Slot, d: ContainerDevice)
    ensures var front := Process(cache, unitOf, view, list, devreq);
      Process(cache, unitOf, view, list, devreq + [d]) ==
        if front.None? then None else
        var g := GrantOne(cache, unitOf, AfterGrants(view, front.value.0), d);
        if g.None? then None else
        var recorded := RecordOne(cache, front.value.1, g.value);
        if recorded.None? then None else Some((front.value.0 + [g.value], recorded.value))
  {
    hide GrantOne, RecordOne;
    assert (devreq + [d])[..|devreq|] == devreq;
  }

  lemma {:induction false} ProcessPrefixFails(cache: Cache, unitOf: string -> int, view: CuMap, list: map<string, string>, devreq: Slot, n: nat)
    requires n <= |devreq| && Process(cache, unitOf, view, list, devreq[..n]).None?
    ensures Process(cache, unitOf, view, list, devreq).None?
  {
    hide GrantOne, RecordOne;
    if n == |devreq| {
      assert devreq[..n] == devreq;
    } else {
      assert devreq[..|devreq| - 1][..n] == devreq[..n];
      ProcessPrefixFails(cache, unitOf, view, list, devreq[..|devreq| - 1], n);
    }
  }

  lemma AfterGrantsAppend(view: CuMap, grants: seq<Grant>, g: Grant)
    ensures AfterGrants(view, grants + [g]) == AfterGrant(AfterGrants(view, grants), g)
  {
    hide AfterGrant;
    assert (grants + [g])[..|grants|] == grants;
  }

  lemma MasksAppend(cache: Cache, grants: seq<Grant>, g: Grant)
    ensures Masks(cache, grants + [g]) == Masks(cache, grants) + [MaskText(cache, |grants|, g)]
  {
    hide MaskText;
  }

  // ---------- what a grant is ----------

  /** A grant of CUs of its own is free, not empty, on the device, and the request rounded up to whole units. */
  lemma GrantSound(cache: Cache, unitOf: string -> int, view: CuMap, d: ContainerDevice)
    ensures var g := GrantOne(cache, unitOf, view, d);
      g.Some? ==>
        && g.value.uuid == d.uuid
        && SoundGrant(cache, g.value)
        && (g.value.Shared? <==> d.usedcores == 0 && CutsDevice(cache, d))
        && (g.value.Exclusive? ==> g.value.cus !! At(view, d.uuid))
  {
    hide Lookup, IsWholeGPU, TakeCus, CutsDevice;
    WholeIsUncut(cache, d);
    var g := GrantOne(cache, unitOf, view, d);
    if g.Some? && g.value.Exclusive? {
      var total := TotalCUs(cache, d.uuid).value;
      TakeCusSound(At(view, d.uuid), total, if d.usedcores == 0 then total else d.usedcores, unitOf(d.uuid));
    }
  }

  /**
   * A request is refused exactly if its device is not registered with CUs, it asks for a negative number, or the free
   * units are too few for the CUs it is to get; a memory-only slice gets none.
   */
  lemma GrantFails(cache: Cache, unitOf: string -> int, view: CuMap, d: ContainerDevice)
    ensures var info, unit := Lookup(cache, d.uuid, 0), unitOf(d.uuid);
      GrantOne(cache, unitOf, view, d).None? <==>
        info.None? || info.value.devcore <= 0 || d.usedcores < 0
        || (!(d.usedcores == 0 && 0 < d.usedmem < info.value.devmem)
            && |FreeUnits(At(view, d.uuid), info.value.devcore, unit)| * (if unit <= 0 then 1 else unit)
                < if d.usedcores == 0 then info.value.devcore else d.usedcores)
  {
    hide Lookup, IsWholeGPU, TakeCus, FreeUnits;
    WholeIsUncut(cache, d);
    var total := TotalCUs(cache, d.uuid);
    if total.Some? {
      TakeCusFails(At(view, d.uuid), total.value, if d.usedcores == 0 then total.value else d.usedcores, unitOf(d.uuid));
    }
  }

  lemma {:induction false} ProcessFinds(cache: Cache, unitOf: string -> int, view: CuMap, list: map<string, string>, devreq: Slot)
    requires Process(cache, unitOf, view, list, devreq).Some?
    ensures forall i :: 0 <= i < |devreq| ==> Lookup(cache, devreq[i].uuid, 0).Some?
  {
    hide RecordOne, AfterGrants, Lookup, TakeCus, IsWholeGPU;
    if devreq != [] { ProcessFinds(cache, unitOf, view, list, devreq[..|devreq| - 1]); }
  }

  /** A call that is served is a sliced one exactly if one of its devices is cut in cores or in memory. */
  lemma SlicedExactly(cache: Cache, unitOf: string -> int, view: CuMap, list: map<string, string>, devreq: Slot)
    requires Process(cache, unitOf, view, list, devreq).Some?
    ensures forall i :: 0 <= i < |devreq| ==> Lookup(cache, devreq[i].uuid, 0).Some?
    ensures Sliced(cache, devreq) <==> exists i :: (0 <= i < |devreq| &&
      (0 < devreq[i].usedcores < Lookup(cache, devreq[i].uuid, 0).value.devcore
       || 0 < devreq[i].usedmem < Lookup(cache, devreq[i].uuid, 0).value.devmem))
  {
    hide Process, Lookup, IsWholeGPU;
    ProcessFinds(cache, unitOf, view, list, devreq);
    forall i | 0 <= i < |devreq| ensures IsWholeGPU(cache, [devreq[i]]) <==> !CutsDevice(cache, devreq[i]) {
      WholeIsUncut(cache, devreq[i]);
    }
  }
}
