/**
 * What one Allocate call guarantees, whatever devices it is asked for and however often one device repeats: the
 * takings are disjoint, the Pod's list grows by exactly them, and the mask text denotes them.
 */
module CallSafety {
  import opened AllocateCall
  import opened Arith
  import opened CuAllocation
  import opened CuList
  import opened CuSnapshot
  import opened DeviceAnnotation
  import opened DeviceCache
  import opened Occupancy
  import opened Text
  import opened Wrappers

  /** The CUs a call took from one device. */
  function GrantedTo(grants: seq<Grant>, uuid: string): set<nat> {
    if grants == [] then {} else
    var last := grants[|grants| - 1];
    GrantedTo(grants[..|grants| - 1], uuid) + if last.uuid == uuid then GrantCus(last) else {}
  }

  /** The CUs a request is entitled to: its cores, or the whole device, rounded up to whole units; none for a memory-only slice. */
  function RoundedRequest(cache: Cache, unitOf: string -> int, d: ContainerDevice): nat {
    var total := TotalCUs(cache, d.uuid);
    if d.usedcores > 0 then RoundUp(d.usedcores, unitOf(d.uuid))
    else if d.usedcores == 0 && total.Some? && !CutsDevice(cache, d) then RoundUp(total.value, unitOf(d.uuid))
    else 0
  }

  function SumRounded(cache: Cache, unitOf: string -> int, devreq: Slot, uuid: string): nat {
    if devreq == [] then 0 else
    var last := devreq[|devreq| - 1];
    SumRounded(cache, unitOf, devreq[..|devreq| - 1], uuid) + if last.uuid == uuid then RoundedRequest(cache, unitOf, last) else 0
  }

  /** The takings alone, as if nothing had to be recorded. */
  function Grants(cache: Cache, unitOf: string -> int, view: CuMap, devreq: Slot): Option<seq<Grant>> {
    if devreq == [] then Some([]) else
    var front := Grants(cache, unitOf, view, devreq[..|devreq| - 1]);
    if front.None? then None else
    var g := GrantOne(cache, unitOf, AfterGrants(view, front.value), devreq[|devreq| - 1]);
    if g.None? then None else Some(front.value + [g.value])
  }

  /** The Pod's recorded share is part of the occupancy the call starts from. */
  ghost predicate Included(a: CuMap, b: CuMap) {
    forall uuid :: At(a, uuid) <= At(b, uuid)
  }

  // ---------- the takings ----------

  lemma {:induction false} AfterGrantsAt(view: CuMap, grants: seq<Grant>, uuid: string)
    ensures At(AfterGrants(view, grants), uuid) == At(view, uuid) + GrantedTo(grants, uuid)
  {
    if grants != [] {
      var front, last := grants[..|grants| - 1], grants[|grants| - 1];
      AfterGrantsAt(view, front, uuid);
    }
  }

  lemma GrantSize(cache: Cache, unitOf: string -> int, view: CuMap, d: ContainerDevice)
    requires GrantOne(cache, unitOf, view, d).Some?
    ensures |GrantCus(GrantOne(cache, unitOf, view, d).value)| == RoundedRequest(cache, unitOf, d)
  {
    hide Lookup, IsWholeGPU, TakeCus, RoundUp, CutsDevice;
    WholeIsUncut(cache, d);
    var g := GrantOne(cache, unitOf, view, d).value;
    var total := TotalCUs(cache, d.uuid).value;
    if g.Exclusive? {
      var cores := if d.usedcores == 0 then total else d.usedcores;
      NothingForNothing(At(view, d.uuid), total, cores, unitOf(d.uuid));
      TakeCusSound(At(view, d.uuid), total, cores, unitOf(d.uuid));
    }
  }

  lemma NothingForNothing(used: set<nat>, total: int, n: int, unit: int)
    ensures n <= 0 ==> TakeCus(used, total, n, unit).None?
  {
  }

  /** What the call took from a device was free when it started, is as much as was asked for, and no CU was taken twice. */
  lemma {:induction false} GrantsDisjoint(cache: Cache, unitOf: string -> int, view: CuMap, devreq: Slot, uuid: string)
    requires Grants(cache, unitOf, view, devreq).Some?
    ensures var grants := Grants(cache, unitOf, view, devreq).value;
      && |grants| == |devreq|
      && GrantedTo(grants, uuid) !! At(view, uuid)
      && |GrantedTo(grants, uuid)| == SumRounded(cache, unitOf, devreq, uuid)
  {
    hide GrantOne, RoundedRequest, AfterGrants, At;
    if devreq != [] {
      var front, d := devreq[..|devreq| - 1], devreq[|devreq| - 1];
      GrantsDisjoint(cache, unitOf, view, front, uuid);
      var before := Grants(cache, unitOf, view, front).value;
      var now := AfterGrants(view, before);
      var g := GrantOne(cache, unitOf, now, d).value;
      AfterGrantsAt(view, before, d.uuid);
      GrantSound(cache, unitOf, now, d);
      GrantSize(cache, unitOf, now, d);
      GrantedToAppend(before, g, uuid);
    }
  }

  lemma GrantedToAppend(grants: seq<Grant>, g: Grant, uuid: string)
    ensures GrantedTo(grants + [g], uuid) == GrantedTo(grants, uuid) + if g.uuid == uuid then GrantCus(g) else {}
    ensures g.uuid == uuid && GrantCus(g) !! GrantedTo(grants, uuid) ==>
      |GrantedTo(grants + [g], uuid)| == |GrantedTo(grants, uuid)| + |GrantCus(g)|
    ensures g.uuid != uuid ==> GrantedTo(grants + [g], uuid) == GrantedTo(grants, uuid)
  {
    assert (grants + [g])[..|grants|] == grants;
    if g.uuid == uuid && GrantCus(g) !! GrantedTo(grants, uuid) {
      DisjointUnionSize(GrantedTo(grants, uuid), GrantCus(g));
    }
  }

  lemma LastTakingDisjoint(cache: Cache, unitOf: string -> int, view: CuMap, before: seq<Grant>, d: ContainerDevice, i: nat)
    requires GrantOne(cache, unitOf, AfterGrants(view, before), d).Some? && i < |before| && before[i].uuid == d.uuid
    ensures GrantCus(before[i]) !! GrantCus(GrantOne(cache, unitOf, AfterGrants(view, before), d).value)
  {
    hide GrantOne, AfterGrants, At;
    AfterGrantsAt(view, before, d.uuid);
    GrantSound(cache, unitOf, AfterGrants(view, before), d);
    GrantedContains(before, i);
  }

  /** Two takings of one call from one device never overlap. */
  lemma {:induction false} TakingsDisjoint(cache: Cache, unitOf: string -> int, view: CuMap, devreq: Slot, i: nat, j: nat)
    requires Grants(cache, unitOf, view, devreq).Some? && i < j < |devreq| && devreq[i].uuid == devreq[j].uuid
    ensures var grants := Grants(cache, unitOf, view, devreq).value;
      |grants| == |devreq| && GrantCus(grants[i]) !! GrantCus(grants[j])
  {
    hide GrantOne, AfterGrants, GrantCus;
    var front := devreq[..|devreq| - 1];
    GrantUuids(cache, unitOf, view, devreq);
    GrantUuids(cache, unitOf, view, front);
    if j < |front| {
      TakingsDisjoint(cache, unitOf, view, front, i, j);
    } else {
      LastTakingDisjoint(cache, unitOf, view, Grants(cache, unitOf, view, front).value, devreq[|devreq| - 1], i);
    }
  }

  lemma {:induction false} GrantUuids(cache: Cache, unitOf: string -> int, view: CuMap, devreq: Slot)
    requires Grants(cache, unitOf, view, devreq).Some?
    ensures var grants := Grants(cache, unitOf, view, devreq).value;
      |grants| == |devreq| && forall i :: 0 <= i < |devreq| ==> grants[i].uuid == devreq[i].uuid
  {
    hide GrantOne, AfterGrants;
    if devreq != [] {
      var front := devreq[..|devreq| - 1];
      GrantUuids(cache, unitOf, view, front);
      GrantSound(cache, unitOf, AfterGrants(view, Grants(cache, unitOf, view, front).value), devreq[|devreq| - 1]);
    }
  }

  lemma {:induction false} GrantedContains(grants: seq<Grant>, i: nat)
    requires i < |grants|
    ensures GrantCus(grants[i]) <= GrantedTo(grants, grants[i].uuid)
  {
    if i < |grants| - 1 { GrantedContains(grants[..|grants| - 1], i); }
  }

  // ---------- the Pod's list ----------

  /** The text recorded for a set reads back as that set. */
  lemma EntryReads(cache: Cache, uuid: string, s: set<nat>)
    requires TotalCUs(cache, uuid).Some? && s != {} && forall c: nat :: c in s ==> c < TotalCUs(cache, uuid).value
    ensures EntryCus(cache, uuid, IdListText(s, TotalCUs(cache, uuid).value)) == Some(s)
  {
    hide Lookup, IdListText, ParseIdList;
    TotalsFit();
    CuList.RoundTrip(s, TotalCUs(cache, uuid).value);
  }

  /** What RecordOne reads as the old share is the share the list denotes; a blank text denotes nothing. */
  lemma OldShare(cache: Cache, list: map<string, string>, uuid: string)
    requires Readable(cache, list) && TotalCUs(cache, uuid).Some?
    ensures uuid in list ==> ParseIdList(list[uuid], TotalCUs(cache, uuid).value) == Some(At(ListCus(cache, list), uuid))
    ensures uuid !in list || TrimSpace(list[uuid]) == "" ==> At(ListCus(cache, list), uuid) == {}
  {
    hide TotalCUs, TrimLeft, TrimRight, ParseParts, Split;
  }

  lemma RecordedText(cache: Cache, list: map<string, string>, g: Grant)
    requires Readable(cache, list) && SoundGrant(cache, g) && g.Exclusive? && RecordOne(cache, list, g).Some?
    ensures RecordOne(cache, list, g).value
      == list[g.uuid := IdListText(At(ListCus(cache, list), g.uuid) + g.cus, TotalCUs(cache, g.uuid).value)]
  {
    hide TotalCUs, ParseIdList, IdListText, TrimLeft, TrimRight, At, ListCus, Readable;
    OldShare(cache, list, g.uuid);
    assert {} + g.cus == g.cus;
  }

  /** A recorded grant is added to its device's share and nothing else changes, merged or not. */
  lemma RecordOneKeeps(cache: Cache, list: map<string, string>, g: Grant)
    requires Readable(cache, list) && SoundGrant(cache, g) && RecordOne(cache, list, g).Some?
    ensures var after := RecordOne(cache, list, g).value;
      && Readable(cache, after)
      && after.Keys == list.Keys + (if g.Exclusive? then {g.uuid} else {})
      && forall uuid :: At(ListCus(cache, after), uuid) == At(ListCus(cache, list), uuid) + if g.uuid == uuid then GrantCus(g) else {}
  {
    if g.Exclusive? {
      ExclusiveKeeps(cache, list, g);
    } else {
      hide At, ListCus, Readable, TotalCUs;
      assert RecordOne(cache, list, g).value == list;
    }
  }

  lemma ExclusiveKeeps(cache: Cache, list: map<string, string>, g: Grant)
    requires Readable(cache, list) && SoundGrant(cache, g) && g.Exclusive? && RecordOne(cache, list, g).Some?
    ensures var after := RecordOne(cache, list, g).value;
      && Readable(cache, after)
      && after.Keys == list.Keys + {g.uuid}
      && forall uuid :: At(ListCus(cache, after), uuid) == At(ListCus(cache, list), uuid) + if g.uuid == uuid then g.cus else {}
  {
    hide TotalCUs, RecordOne, IdListText, EntryCus, Readable, ListCus;
    var s := At(ListCus(cache, list), g.uuid) + g.cus;
    RecordedText(cache, list, g);
    EntryInRange(cache, list, g.uuid);
    EntryReads(cache, g.uuid, s);
    EntryUpdate(cache, list, g.uuid, IdListText(s, TotalCUs(cache, g.uuid).value), s);
  }

  /** Recording new CUs that the list does not hold yet never fails. */
  lemma RecordSound(cache: Cache, list: map<string, string>, g: Grant)
    requires Readable(cache, list) && SoundGrant(cache, g)
    requires g.Exclusive? ==> g.cus !! At(ListCus(cache, list), g.uuid)
    ensures RecordOne(cache, list, g).Some?
  {
    hide Lookup, IdListText, ParseIdList, TrimLeft, TrimRight;
  }

  /**
   * Whatever a call hands out lies on its devices, and its list adds exactly that to the Pod's old one, also for a Pod
   * whose old share is no longer part of the occupancy.
   */
  lemma {:induction false} ProcessKeeps(cache: Cache, unitOf: string -> int, view: CuMap, list: map<string, string>, devreq: Slot)
    requires Readable(cache, list) && Process(cache, unitOf, view, list, devreq).Some?
    ensures var (grants, after) := Process(cache, unitOf, view, list, devreq).value;
      && |grants| == |devreq|
      && (forall i :: 0 <= i < |grants| ==> SoundGrant(cache, grants[i]) && grants[i].uuid == devreq[i].uuid)
      && Readable(cache, after)
      && (forall uuid :: At(ListCus(cache, after), uuid) == At(ListCus(cache, list), uuid) + GrantedTo(grants, uuid))
      && (TotalCUs(cache, "").None? && "" !in list ==> "" !in after)
  {
    hide GrantOne, RecordOne, AfterGrants, At, Readable, ListCus;
    if devreq != [] {
      var front, d := devreq[..|devreq| - 1], devreq[|devreq| - 1];
      ProcessKeeps(cache, unitOf, view, list, front);
      var (before, current) := Process(cache, unitOf, view, list, front).value;
      var g := GrantOne(cache, unitOf, AfterGrants(view, before), d).value;
      GrantSound(cache, unitOf, AfterGrants(view, before), d);
      KeepsStep(cache, list, current, before, g);
    }
  }

  lemma KeepsStep(cache: Cache, list: map<string, string>, current: map<string, string>, before: seq<Grant>, g: Grant)
    requires Readable(cache, list) && Readable(cache, current) && SoundGrant(cache, g) && RecordOne(cache, current, g).Some?
    requires forall uuid :: At(ListCus(cache, current), uuid) == At(ListCus(cache, list), uuid) + GrantedTo(before, uuid)
    ensures var after := RecordOne(cache, current, g).value;
      && Readable(cache, after)
      && (forall uuid :: At(ListCus(cache, after), uuid) == At(ListCus(cache, list), uuid) + GrantedTo(before + [g], uuid))
      && (TotalCUs(cache, "").None? && "" !in current ==> "" !in after)
  {
    hide RecordOne, At, Readable, ListCus, GrantedTo, TotalCUs, GrantCus;
    RecordOneKeeps(cache, current, g);
    var after := RecordOne(cache, current, g).value;
    forall uuid: string ensures At(ListCus(cache, after), uuid) == At(ListCus(cache, list), uuid) + GrantedTo(before + [g], uuid) {
      GrantedToAppend(before, g, uuid);
    }
  }

  /** A call that took CUs of its own on a device it cuts in cores or memory is a sliced one with something to persist. */
  lemma SliceIsPersisted(cache: Cache, unitOf: string -> int, view: CuMap, list: map<string, string>, devreq: Slot, i: nat)
    requires Readable(cache, list) && Process(cache, unitOf, view, list, devreq).Some? && i < |devreq|
    requires Process(cache, unitOf, view, list, devreq).value.0[i].Exclusive?
    requires var info := Lookup(cache, devreq[i].uuid, 0);
      info.Some? && (0 < devreq[i].usedcores < info.value.devcore || 0 < devreq[i].usedmem < info.value.devmem)
    ensures Process(cache, unitOf, view, list, devreq).value.1 != map[] && Sliced(cache, devreq)
  {
    hide Process, Readable, Lookup, Sliced;
    ProcessKeeps(cache, unitOf, view, list, devreq);
    SlicedExactly(cache, unitOf, view, list, devreq);
    var (grants, after) := Process(cache, unitOf, view, list, devreq).value;
    GrantedContains(grants, i);
    assert At(ListCus(cache, after), grants[i].uuid) != {};
  }

  lemma EntryInRange(cache: Cache, list: map<string, string>, uuid: string)
    requires Readable(cache, list) && TotalCUs(cache, uuid).Some?
    ensures forall c: nat :: c in At(ListCus(cache, list), uuid) ==> c < TotalCUs(cache, uuid).value
  {
    hide Lookup, ParseIdList;
    if uuid in list { ParsedInRange(list[uuid], TotalCUs(cache, uuid).value); }
  }

  lemma TotalsFit()
    ensures IntMax(32) <= IntMax(64)
  {
    IntMaxGrows(32, 64);
  }

  lemma EntryUpdate(cache: Cache, list: map<string, string>, uuid: string, text: string, s: set<nat>)
    requires Readable(cache, list) && EntryCus(cache, uuid, text) == Some(s)
    ensures Readable(cache, list[uuid := text])
    ensures ListCus(cache, list[uuid := text]) == ListCus(cache, list)[uuid := s]
  {
    hide EntryCus;
  }

  /**
   * For a Pod whose recorded share is part of the occupancy: reading the old share and merging never fail, so the
   * call fails only for want of a device or of free CUs; and the list then denotes the old share plus the takings.
   */
  lemma {:induction false} RecordingNeverFails(cache: Cache, unitOf: string -> int, view: CuMap, list: map<string, string>, devreq: Slot)
    requires Readable(cache, list) && Included(ListCus(cache, list), view)
    ensures Process(cache, unitOf, view, list, devreq).Some? <==> Grants(cache, unitOf, view, devreq).Some?
    ensures Process(cache, unitOf, view, list, devreq).Some? ==>
      var (grants, after) := Process(cache, unitOf, view, list, devreq).value;
      && Grants(cache, unitOf, view, devreq) == Some(grants)
      && Readable(cache, after)
      && (forall uuid :: At(ListCus(cache, after), uuid) == At(ListCus(cache, list), uuid) + GrantedTo(grants, uuid))
  {
    hide GrantOne, RecordOne, AfterGrants, At, Readable, ListCus;
    if devreq != [] {
      var front, d := devreq[..|devreq| - 1], devreq[|devreq| - 1];
      RecordingNeverFails(cache, unitOf, view, list, front);
      if Process(cache, unitOf, view, list, front).Some? {
        var (before, current) := Process(cache, unitOf, view, list, front).value;
        var now := AfterGrants(view, before);
        GrantSound(cache, unitOf, now, d);
        AfterGrantsAt(view, before, d.uuid);
        var g := GrantOne(cache, unitOf, now, d);
        if g.Some? { RecordStep(cache, list, current, before, g.value); }
      }
    }
  }

  lemma RecordStep(cache: Cache, list: map<string, string>, current: map<string, string>, before: seq<Grant>, g: Grant)
    requires Readable(cache, list) && Readable(cache, current)
    requires forall uuid :: At(ListCus(cache, current), uuid) == At(ListCus(cache, list), uuid) + GrantedTo(before, uuid)
    requires SoundGrant(cache, g)
    requires g.Exclusive? ==> g.cus !! At(ListCus(cache, list), g.uuid) && g.cus !! GrantedTo(before, g.uuid)
    ensures RecordOne(cache, current, g).Some? && Readable(cache, RecordOne(cache, current, g).value)
    ensures var after := RecordOne(cache, current, g).value;
      forall uuid :: At(ListCus(cache, after), uuid) == At(ListCus(cache, list), uuid) + GrantedTo(before + [g], uuid)
  {
    hide RecordOne, At, Readable, ListCus, GrantedTo;
    RecordSound(cache, current, g);
    KeepsStep(cache, list, current, before, g);
  }

  /** The recorded share of a device grows by exactly the rounded requests for it. */
  lemma ListGrowsByRequests(cache: Cache, unitOf: string -> int, view: CuMap, list: map<string, string>, devreq: Slot, uuid: string)
    requires Readable(cache, list) && Included(ListCus(cache, list), view)
    requires Process(cache, unitOf, view, list, devreq).Some?
    ensures var after := Process(cache, unitOf, view, list, devreq).value.1;
      && Readable(cache, after)
      && |At(ListCus(cache, after), uuid)| == |At(ListCus(cache, list), uuid)| + SumRounded(cache, unitOf, devreq, uuid)
  {
    hide Readable, ListCus, At, Process, Grants;
    RecordingNeverFails(cache, unitOf, view, list, devreq);
    GrantsDisjoint(cache, unitOf, view, devreq, uuid);
    var (grants, after) := Process(cache, unitOf, view, list, devreq).value;
    DisjointUnionSize(At(ListCus(cache, list), uuid), GrantedTo(grants, uuid));
  }

  // ---------- the mask text ----------

  /** part is "<i>:<list>", and the list reads back as the given CUs of device uuid. */
  predicate Denotes(cache: Cache, part: string, i: nat, uuid: string, cus: set<nat>) {
    && TotalCUs(cache, uuid).Some?
    && var fields := Split(part, ':');
    && |fields| == 2 && fields[0] == Itoa(i)
    && ParseIdList(fields[1], TotalCUs(cache, uuid).value) == Some(cus)
  }

  /** Part i of HSA_CU_MASK is the container-local index and an ID list that denotes exactly the CUs of grant i. */
  lemma MaskDenotesGrant(cache: Cache, g: Grant, i: nat)
    requires SoundGrant(cache, g)
    ensures Denotes(cache, MaskText(cache, i, g), i, g.uuid,
      if g.Exclusive? then g.cus else Interval(0, Lookup(cache, g.uuid, 0).value.devcore))
    ensures ';' !in MaskText(cache, i, g)
  {
    hide Lookup, ParseIdList, IdListText, Split, Itoa, Denotes;
    var total := TotalCUs(cache, g.uuid).value;
    TotalsFit();
    if g.Exclusive? {
      CuList.RoundTrip(g.cus, total);
      ListTextChars(g.cus, total);
      PartDenotes(cache, i, g.uuid, IdListText(g.cus, total), g.cus);
    } else {
      AllCusText(total);
      PartDenotes(cache, i, g.uuid, "0-" + Itoa(total - 1), Interval(0, total));
    }
  }

  lemma PartDenotes(cache: Cache, i: nat, uuid: string, text: string, cus: set<nat>)
    requires ':' !in text && ';' !in text
    requires TotalCUs(cache, uuid).Some? && ParseIdList(text, TotalCUs(cache, uuid).value) == Some(cus)
    ensures Denotes(cache, Itoa(i) + ":" + text, i, uuid, cus)
    ensures ';' !in Itoa(i) + ":" + text
  {
    hide TotalCUs, ParseIdList, Split, Itoa;
    MaskParts(i, text);
  }

  /** The whole variable: splitting it at ';' gives one part per device, in request order. */
  lemma MaskSplits(cache: Cache, grants: seq<Grant>)
    requires grants != [] && forall i :: 0 <= i < |grants| ==> SoundGrant(cache, grants[i])
    ensures Split(MaskValue(cache, grants).value, ';') == Masks(cache, grants)
  {
    hide MaskText, SoundGrant, Split, Join;
    forall i | 0 <= i < |grants| ensures ';' !in Masks(cache, grants)[i] { MaskDenotesGrant(cache, grants[i], i); }
    SplitJoin(Masks(cache, grants), ';');
  }

  lemma MaskParts(i: nat, text: string)
    requires ':' !in text && ';' !in text
    ensures Split(Itoa(i) + ":" + text, ':') == [Itoa(i), text]
    ensures ';' !in Itoa(i) + ":" + text
  {
    ItoaChars(i);
    hide Itoa, Split;
    assert Itoa(i) + ":" + text == Itoa(i) + [':'] + text;
    SplitHead(Itoa(i), ':', text);
    SplitPlain(text, ':');
  }
}
