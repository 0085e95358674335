/** The registered devices: lookup by UUID or kubelet split id, CU totals, and the whole-GPU test. */
module DeviceCache {
  import opened DeviceAnnotation
  import opened Text
  import opened Wrappers

  /** A registered device. */
  datatype DeviceInfo = DeviceInfo(id: string, index: nat, devcore: Int32, devmem: Int32, health: bool, pciBDF: Option<string>)

  /** The device cache; entries may be nil. */
  type Cache = seq<Option<DeviceInfo>>

  /** An entry answers to its own id, and to split ids "<bdf>#<slot>" of its PCI address. */
  predicate Answers(d: DeviceInfo, uuid: string) {
    var bdf := Split(uuid, '#')[0];
    d.id == uuid || (d.pciBDF.Some? && bdf != uuid && d.pciBDF.value == bdf)
  }

  /** A split id is the PCI address, which holds no '#', then "#" and anything; any other id only names a device itself. */
  lemma AnswersExactly(d: DeviceInfo, uuid: string)
    ensures Answers(d, uuid) <==>
      d.id == uuid || (d.pciBDF.Some? && '#' !in d.pciBDF.value && d.pciBDF.value + "#" <= uuid)
  {
    hide Split;
    var bdf := Split(uuid, '#')[0];
    SplitHeads(uuid, '#');
    if d.pciBDF.Some? && '#' !in d.pciBDF.value && d.pciBDF.value + "#" <= uuid {
      var head := d.pciBDF.value;
      SplitHead(head, '#', uuid[|head| + 1..]);
      assert uuid == head + ['#'] + uuid[|head| + 1..];
    }
  }

  /** The first entry from i on that answers to uuid. */
  function Lookup(cache: Cache, uuid: string, i: nat): Option<DeviceInfo>
    decreases |cache| - i
  {
    if i >= |cache| then None
    else if cache[i].Some? && Answers(cache[i].value, uuid) then cache[i]
    else Lookup(cache, uuid, i + 1)
  }

  /** Entry k answers to uuid, and none before it does. */
  ghost predicate FirstAnswer(cache: Cache, uuid: string, k: nat) {
    && k < |cache| && cache[k].Some? && Answers(cache[k].value, uuid)
    && forall j :: 0 <= j < k && cache[j].Some? ==> !Answers(cache[j].value, uuid)
  }

  method LookupDevice(cache: Cache, uuid: string) returns (d: Option<DeviceInfo>)
    ensures d == Lookup(cache, uuid, 0)
    ensures d.Some? ==> exists k: nat :: FirstAnswer(cache, uuid, k) && cache[k] == d
    ensures d.None? ==> forall e :: e in cache && e.Some? ==> !Answers(e.value, uuid)
  {
    hide Answers;
    for i := 0 to |cache|
      invariant Lookup(cache, uuid, 0) == Lookup(cache, uuid, i)
      invariant forall j :: 0 <= j < i && cache[j].Some? ==> !Answers(cache[j].value, uuid)
    {
      if cache[i].Some? && Answers(cache[i].value, uuid) {
        assert FirstAnswer(cache, uuid, i);
        return cache[i];
      }
    }
    return None;
  }

  /** getDeviceTotalCUs: None for an unknown device or one without CUs. */
  function TotalCUs(cache: Cache, uuid: string): (total: Option<nat>)
    ensures total.Some? ==> 0 < total.value <= IntMax(32)
  {
    var d := Lookup(cache, uuid, 0);
    if d.None? || d.value.devcore <= 0 then None else Some(d.value.devcore)
  }

  /** isWholeGPU: every device of the request takes its full cores and memory, or leaves both at zero. */
  predicate IsWholeGPU(cache: Cache, devreq: Slot) {
    forall i :: 0 <= i < |devreq| ==>
      var info := Lookup(cache, devreq[i].uuid, 0);
      && info.Some?
      && !(0 < devreq[i].usedcores < info.value.devcore)
      && !(0 < devreq[i].usedmem < info.value.devmem)
  }

  /** The request cuts a registered device: it takes some but not all of its cores, or some but not all of its memory. */
  predicate CutsDevice(cache: Cache, d: ContainerDevice) {
    var info := Lookup(cache, d.uuid, 0);
    info.Some? && (0 < d.usedcores < info.value.devcore || 0 < d.usedmem < info.value.devmem)
  }

  lemma WholeIsUncut(cache: Cache, d: ContainerDevice)
    ensures IsWholeGPU(cache, [d]) <==> Lookup(cache, d.uuid, 0).Some? && !CutsDevice(cache, d)
  {
    hide Lookup;
    assert [d][0] == d;
  }
}
