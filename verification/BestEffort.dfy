/** The preferred-allocation policy: its state, its initialisation, and what one Allocate call answers. */
module BestEffort {
  import opened CandidateFamily
  import opened Candidates
  import opened CandidateSubsets
  import opened DeviceGroups
  import opened FilteredGroups
  import opened PairWeights
  import opened RegisteredDevices
  import opened Selection
  import opened Sorting
  import opened Wrappers

  // ---------- arguments ----------

  predicate AllIn(ids: seq<string>, available: seq<string>) {
    forall id :: id in ids ==> id in available
  }

  method SetContainsAll(all: seq<string>, subset: seq<string>) returns (r: bool)
    ensures r <==> |subset| <= |all| && AllIn(subset, all)
  {
    if |subset| > |all| { return false; }
    for k := 0 to |subset|
      invariant forall j :: 0 <= j < k ==> subset[j] in all
    {
      var devFound := false;
      for i := 0 to |all|
        invariant !devFound && subset[k] !in all[..i]
      {
        if all[i] == subset[k] {
          devFound := true;
          break;
        }
      }
      if !devFound {
        assert all[..|all|] == all;
        assert subset[k] in subset;
        return false;
      }
    }
    return true;
  }

  // ---------- one GPU: no weights ----------

  function FreeIds(availableIds: seq<string>, requiredIds: seq<string>): seq<string> {
    if availableIds == [] then []
    else
      var id := availableIds[|availableIds| - 1];
      FreeIds(availableIds[..|availableIds| - 1], requiredIds) + (if id in requiredIds then [] else [id])
  }

  function Take(ids: seq<string>, n: int): seq<string> {
    if n <= 0 then [] else if |ids| < n then ids else ids[..n]
  }

  /** The must-include ids, then the other available ones in order until size is reached. */
  method FillUp(availableIds: seq<string>, requiredIds: seq<string>, size: int) returns (outset: seq<string>)
    requires |requiredIds| <= size
    ensures outset == requiredIds + Take(FreeIds(availableIds, requiredIds), size - |requiredIds|)
  {
    outset := requiredIds;
    ghost var n := size - |requiredIds|;
    hide FreeIds, Take;
    NothingTaken(availableIds, requiredIds, n);
    for i := 0 to |availableIds|
      invariant outset == requiredIds + Take(FreeIds(availableIds[..i], requiredIds), n)
    {
      var id := availableIds[i];
      if |outset| == size {
        FreeIdsPrefix(availableIds, requiredIds, i);
        TakeFull(FreeIds(availableIds[..i], requiredIds), FreeIds(availableIds, requiredIds), n);
        return;
      }
      TakeNext(availableIds, requiredIds, i, n);
      if id !in requiredIds {
        outset := outset + [id];
      }
    }
    assert availableIds[..|availableIds|] == availableIds;
  }

  lemma {:induction false} FreeIdsPrefix(availableIds: seq<string>, requiredIds: seq<string>, i: nat)
    requires i <= |availableIds|
    ensures FreeIds(availableIds[..i], requiredIds) <= FreeIds(availableIds, requiredIds)
  {
    if i < |availableIds| {
      var front := availableIds[..|availableIds| - 1];
      FreeIdsPrefix(front, requiredIds, i);
      assert front[..i] == availableIds[..i];
    } else {
      assert availableIds[..i] == availableIds;
    }
  }

  lemma TakeFull(a: seq<string>, b: seq<string>, n: int)
    requires a <= b && (n <= 0 || |Take(a, n)| == n)
    ensures Take(a, n) == Take(b, n)
  {
  }

  lemma NothingTaken(availableIds: seq<string>, requiredIds: seq<string>, n: int)
    ensures Take(FreeIds(availableIds[..0], requiredIds), n) == []
  {
  }

  lemma TakeNext(availableIds: seq<string>, requiredIds: seq<string>, i: nat, n: int)
    requires i < |availableIds| && n >= 0 && |Take(FreeIds(availableIds[..i], requiredIds), n)| != n
    ensures var before, after := Take(FreeIds(availableIds[..i], requiredIds), n), Take(FreeIds(availableIds[..i + 1], requiredIds), n);
      after == if availableIds[i] in requiredIds then before else before + [availableIds[i]]
  {
    assert availableIds[..i + 1][..i] == availableIds[..i];
  }

  lemma {:induction false} FreeIdsMembers(availableIds: seq<string>, requiredIds: seq<string>)
    ensures forall id :: id in FreeIds(availableIds, requiredIds) <==> id in availableIds && id !in requiredIds
    ensures NoDuplicates(availableIds) ==> NoDuplicates(FreeIds(availableIds, requiredIds))
  {
    if availableIds != [] {
      var front, last := availableIds[..|availableIds| - 1], availableIds[|availableIds| - 1];
      FreeIdsMembers(front, requiredIds);
      assert availableIds == front + [last];
    }
  }

  lemma NotAmongFirst(ids: seq<string>, j: nat)
    requires NoDuplicates(ids) && j < |ids|
    ensures ids[j] !in ids[..j]
  {
  }

  /** The filling up passes over no available id: whatever is taken beyond the must-include ids, the ones before it are too. */
  lemma FillTakesFirst(availableIds: seq<string>, requiredIds: seq<string>, n: int, i: nat, j: nat)
    requires NoDuplicates(availableIds) && i < j < |availableIds| && availableIds[i] !in requiredIds
    requires availableIds[j] in Take(FreeIds(availableIds, requiredIds), n)
    ensures availableIds[i] in Take(FreeIds(availableIds, requiredIds), n)
  {
    var free, before := FreeIds(availableIds, requiredIds), FreeIds(availableIds[..j], requiredIds);
    FreeIdsPrefix(availableIds, requiredIds, j);
    FreeIdsMembers(availableIds[..j], requiredIds);
    NotAmongFirst(availableIds, j);
    hide FreeIds, NoDuplicates;
    assert availableIds[..j][i] == availableIds[i];
    assert forall x :: 0 <= x < |before| ==> before[x] == free[x] && before[x] in before;
    var s :| 0 <= s < |before| && before[s] == availableIds[i];
    var t :| 0 <= t < |Take(free, n)| && Take(free, n)[t] == availableIds[j];
    assert t >= |before|;
    assert Take(free, n)[s] == free[s] == before[s];
  }

  /** How many available ids are free. */
  lemma FreeIdsCount(availableIds: seq<string>, requiredIds: seq<string>)
    requires NoDuplicates(availableIds) && NoDuplicates(requiredIds) && AllIn(requiredIds, availableIds)
    ensures |FreeIds(availableIds, requiredIds)| == |availableIds| - |requiredIds|
  {
    var free := FreeIds(availableIds, requiredIds);
    FreeIdsMembers(availableIds, requiredIds);
    hide FreeIds, NoDuplicates;
    forall id ensures multiset(availableIds)[id] == (multiset(free) + multiset(requiredIds))[id] {
      NoDuplicatesCount(availableIds, id);
      NoDuplicatesCount(free, id);
      NoDuplicatesCount(requiredIds, id);
    }
    assert multiset(availableIds) == multiset(free + requiredIds);
    SameContents(availableIds, free + requiredIds);
  }

  lemma FillWellFormed(availableIds: seq<string>, requiredIds: seq<string>, size: int)
    requires NoDuplicates(availableIds) && NoDuplicates(requiredIds) && AllIn(requiredIds, availableIds)
    requires |requiredIds| <= size <= |availableIds|
    ensures WellFormed(availableIds, requiredIds, size, requiredIds + Take(FreeIds(availableIds, requiredIds), size - |requiredIds|))
  {
    FreeIdsCount(availableIds, requiredIds);
    FreeIdsMembers(availableIds, requiredIds);
    hide FreeIds;
    var free, n := FreeIds(availableIds, requiredIds), size - |requiredIds|;
    assert n > 0 ==> Take(free, n) == free[..n];
    assert forall id :: id in Take(free, n) ==> id in free;
    var out := requiredIds + Take(free, n);
    forall i, j | 0 <= i < j < |out| ensures out[i] != out[j] {
      if i < |requiredIds| <= j {
        assert out[i] in requiredIds;
        assert out[j] in Take(free, n);
      }
    }
  }

  // ---------- the scored branch ----------

  /** r comes from the best member of the family over some order of the available devices, or no member beats the start. */
  ghost predicate ScoredAt(devs: seq<Device>, m: DeviceMap, weights: Weights, spread: bool, availableIds: seq<string>,
                           requiredIds: seq<string>, size: int, r: Result<seq<string>>,
                           available: seq<Device>, groups: seq<DevicePartitions>)
  {
    var required := Registered(m, requiredIds);
    && multiset(available) == multiset(Registered(m, availableIds))
    && Filtered(devs, available, required, groups)
    && (r.Failure? <==> NoneBetter(IdsOf(groups), weights, NodeIds(required), size - |required|, spread, StartScore(spread)))
    && (r.Success? ==> Answer(IdsOf(groups), weights, NodeIds(required), size - |required|, spread,
          Free(available, requiredIds), requiredIds, r.value))
  }

  ghost predicate Scored(devs: seq<Device>, m: DeviceMap, weights: Weights, spread: bool, availableIds: seq<string>,
                         requiredIds: seq<string>, size: int, r: Result<seq<string>>)
  {
    if |Registered(m, availableIds)| < size then r.Failure?
    else exists available, groups :: ScoredAt(devs, m, weights, spread, availableIds, requiredIds, size, r, available, groups)
  }

  /** Scores of size ids stay below the starting score of the packing policy. */
  predicate ScoresFit(size: int) {
    MAX_WEIGHT * (size * (size - 1)) < 2 * MAX_INT32
  }

  lemma TooFewFail(devs: seq<Device>, m: DeviceMap, weights: Weights, spread: bool, availableIds: seq<string>,
                   requiredIds: seq<string>, size: int, r: Result<seq<string>>)
    requires Scored(devs, m, weights, spread, availableIds, requiredIds, size, r)
    ensures |Registered(m, availableIds)| < size ==> r.Failure?
  {
    hide Registered;
  }

  lemma ScoredFails(devs: seq<Device>, m: DeviceMap, weights: Weights, spread: bool, availableIds: seq<string>,
                    requiredIds: seq<string>, size: int, r: Result<seq<string>>)
    requires KubeletRequest(m, availableIds, requiredIds) && InBounds(weights) && |requiredIds| < size
    requires Present(devs, m, availableIds)
    requires Scored(devs, m, weights, spread, availableIds, requiredIds, size, r)
    ensures r.Failure? && |Registered(m, availableIds)| >= size ==> !spread && !ScoresFit(size)
  {
    hide KubeletRequest, InBounds, Registered, Filtered, NoneBetter, Answer, IdsOf, NodeIds, Member, Free;
    if r.Failure? && |Registered(m, availableIds)| >= size {
      var available, groups :| ScoredAt(devs, m, weights, spread, availableIds, requiredIds, size, r, available, groups);
      var required := Registered(m, requiredIds);
      RegisteredSize(m, requiredIds);
      SameContents(available, Registered(m, availableIds));
      NodeIdsNodes(required);
      var newSize := size - |required|;
      var whole, f := FamilyNotEmpty(devs, m, available, availableIds, requiredIds, groups, newSize);
      if spread || ScoresFit(size) {
        SomeoneBetter(IdsOf(groups), weights, NodeIds(required), newSize, spread, whole, f);
      }
    }
  }

  /** Whatever order the groups come in, no member of the family beats the starting score. */
  ghost predicate ScoresTooHigh(devs: seq<Device>, m: DeviceMap, weights: Weights, spread: bool, availableIds: seq<string>,
                                requiredIds: seq<string>, size: int)
  {
    var required := Registered(m, requiredIds);
    forall groups :: Filtered(devs, Registered(m, availableIds), required, groups) ==>
      NoneBetter(IdsOf(groups), weights, NodeIds(required), size - |required|, spread, StartScore(spread))
  }

  /** A score is called for, and there are too few registered ids, or no score is low enough. */
  ghost predicate NoScoredChoice(devs: seq<Device>, m: DeviceMap, weights: Weights, spread: bool, availableIds: seq<string>,
                                 requiredIds: seq<string>, size: int)
  {
    && Scoring(weights, availableIds, requiredIds, size)
    && (|Registered(m, availableIds)| < size || ScoresTooHigh(devs, m, weights, spread, availableIds, requiredIds, size))
  }

  /** With enough registered ids the scored branch fails exactly if all scores are too high. */
  lemma ScoredFailsExactly(devs: seq<Device>, m: DeviceMap, weights: Weights, spread: bool, availableIds: seq<string>,
                           requiredIds: seq<string>, size: int, r: Result<seq<string>>)
    requires DisjointNodes(devs) && DistinctParents(devs) && |Registered(m, availableIds)| >= size
    requires Scored(devs, m, weights, spread, availableIds, requiredIds, size, r)
    ensures r.Failure? <==> ScoresTooHigh(devs, m, weights, spread, availableIds, requiredIds, size)
  {
    hide DisjointNodes, DistinctParents, Registered, Filtered, NoneBetter, Answer, IdsOf, NodeIds, Free;
    var available, groups :| ScoredAt(devs, m, weights, spread, availableIds, requiredIds, size, r, available, groups);
    var all, required := Registered(m, availableIds), Registered(m, requiredIds);
    FilteredReordered(devs, available, all, required, groups);
    forall other | Filtered(devs, all, required, other) ensures other == groups {
      OrderIrrelevant(devs, all, required, other, groups);
    }
  }

  /** The groups depend on which devices are available, not on their order. */
  lemma FilteredReordered(devs: seq<Device>, a: seq<Device>, b: seq<Device>, required: seq<Device>, groups: seq<DevicePartitions>)
    requires multiset(a) == multiset(b) && Filtered(devs, a, required, groups)
    ensures Filtered(devs, b, required, groups)
  {
    hide Nodes, GroupEntries, Ordered, AllIds;
    NodesPermute(a, b);
    forall x ensures FilteredAt(devs, b, required, AllIds(groups), x) {
      assert FilteredAt(devs, a, required, AllIds(groups), x);
    }
  }

  lemma ScoredAnswers(devs: seq<Device>, m: DeviceMap, weights: Weights, spread: bool, availableIds: seq<string>,
                      requiredIds: seq<string>, size: int, r: Result<seq<string>>)
    requires KubeletRequest(m, availableIds, requiredIds) && r.Success?
    requires Scored(devs, m, weights, spread, availableIds, requiredIds, size, r)
    ensures WellFormed(availableIds, requiredIds, size + |requiredIds| - |Registered(m, requiredIds)|, r.value)
    ensures WellFormed(availableIds, requiredIds, size, r.value) <==> forall id :: id in requiredIds ==> id in m
  {
    hide KubeletRequest, Registered, Filtered, NoneBetter, Answer, IdsOf, NodeIds, Member, Free, NoDuplicates;
    var available, groups :| ScoredAt(devs, m, weights, spread, availableIds, requiredIds, size, r, available, groups);
    RegisteredSize(m, requiredIds);
    AnswerWellFormed(devs, m, available, availableIds, requiredIds, groups, weights, size - |Registered(m, requiredIds)|, spread, r.value);
  }

  // ---------- the answer of one call ----------

  /** Which rule decides a call. */
  ghost predicate Allocated(devs: seq<Device>, m: DeviceMap, weights: Weights, spread: bool, availableIds: seq<string>,
                            requiredIds: seq<string>, size: int, r: Result<seq<string>>)
  {
    if size <= 0 || |availableIds| < size || |requiredIds| > size || devs == [] then r.Failure?
    else if |availableIds| == size then r == Success(availableIds)
    else if |requiredIds| == size then r == Success(requiredIds)
    else if !AllIn(requiredIds, availableIds) then r.Failure?
    else if weights == map[] then r == Success(requiredIds + Take(FreeIds(availableIds, requiredIds), size - |requiredIds|))
    else Scored(devs, m, weights, spread, availableIds, requiredIds, size, r)
  }

  /** The sizes and the table call for a scored choice. */
  predicate Scoring(weights: Weights, availableIds: seq<string>, requiredIds: seq<string>, size: int) {
    |requiredIds| < size < |availableIds| && weights != map[]
  }

  /**
   * A successful answer to a well-formed request is well formed exactly if no score was needed or every must-include id
   * is registered.
   */
  lemma AllocatedWellFormed(devs: seq<Device>, m: DeviceMap, weights: Weights, spread: bool, availableIds: seq<string>,
                            requiredIds: seq<string>, size: int, r: Result<seq<string>>)
    requires KubeletRequest(m, availableIds, requiredIds) && r.Success?
    requires Allocated(devs, m, weights, spread, availableIds, requiredIds, size, r)
    ensures WellFormed(availableIds, requiredIds, size, r.value)
      <==> (Scoring(weights, availableIds, requiredIds, size) ==> forall id :: id in requiredIds ==> id in m)
    ensures NoDuplicates(r.value) && AllIn(r.value, availableIds) && AllIn(requiredIds, r.value)
    ensures |r.value| >= size
  {
    hide Scored, ById, NoDuplicates, FreeIds, Take;
    if |availableIds| != size && |requiredIds| != size {
      RegisteredSize(m, requiredIds);
      hide Registered;
      if weights == map[] {
        FillWellFormed(availableIds, requiredIds, size);
      } else {
        ScoredAnswers(devs, m, weights, spread, availableIds, requiredIds, size, r);
      }
    }
  }

  lemma RegisteredAppend(m: DeviceMap, ids: seq<string>, id: string)
    ensures Registered(m, ids + [id]) == Registered(m, ids) + if id in m then [m[id]] else []
  {
    assert (ids + [id])[..|ids|] == ids;
  }

  lemma TwoOfThree(m: DeviceMap, x: string, y: string, z: string)
    requires x in m && y in m && z !in m
    ensures Registered(m, [x, y, z]) == [m[x], m[y]] && Registered(m, [z]) == []
  {
    RegisteredAppend(m, [], x);
    RegisteredAppend(m, [], z);
    RegisteredAppend(m, [x], y);
    RegisteredAppend(m, [x, y], z);
    assert Registered(m, []) == [];
    assert [] + [x] == [x] && [] + [z] == [z] && [x] + [y] == [x, y] && [x, y] + [z] == [x, y, z];
  }

  /** Two devices, three ids on offer, and the unknown one must be included: three ids come back for a request of two. */
  lemma UnknownMustInclude(a: Device, b: Device, r: Result<seq<string>>)
    requires a == Device("a", 1, 0, "g") && b == Device("b", 2, 0, "h")
    requires Allocated([a, b], map["a" := a, "b" := b], map[(1, 2) := 80], false, ["a", "b", "x"], ["x"], 2, r)
    ensures r.Success? && |r.value| == 3
  {
    hide Scored, Registered, WellFormed, FreeIds, Take;
    var devs, m, weights := [a, b], map["a" := a, "b" := b], map[(1, 2) := 80];
    var availableIds, requiredIds := ["a", "b", "x"], ["x"];
    TwoOfThree(m, "a", "b", "x");
    assert (1, 2) in weights;
    UnknownRequest(a, b, devs, m, availableIds, requiredIds);
    assert Scored(devs, m, weights, false, availableIds, requiredIds, 2, r);
    ScoredFails(devs, m, weights, false, availableIds, requiredIds, 2, r);
    ScoredAnswers(devs, m, weights, false, availableIds, requiredIds, 2, r);
    WellFormedSize(availableIds, requiredIds, 3, r.value);
  }

  lemma WellFormedSize(availableIds: seq<string>, requiredIds: seq<string>, size: int, out: seq<string>)
    requires WellFormed(availableIds, requiredIds, size, out)
    ensures |out| == size
  {
  }

  lemma UnknownRequest(a: Device, b: Device, devs: seq<Device>, m: DeviceMap, availableIds: seq<string>, requiredIds: seq<string>)
    requires a.id == "a" && b.id == "b" && devs == [a, b] && m == map["a" := a, "b" := b]
    requires availableIds == ["a", "b", "x"] && requiredIds == ["x"]
    ensures KubeletRequest(m, availableIds, requiredIds) && AllIn(requiredIds, availableIds) && Present(devs, m, availableIds)
  {
    assert devs[0] == a && devs[1] == b;
    assert availableIds[2] == "x";
  }

  /**
   * A well-formed request with proper sizes fails exactly for want of an initialisation or of a scored choice; as long as
   * the scores of size ids fit below the packing policy's starting score, or the policy is the spreading one, a choice is
   * wanting only for too few registered ids.
   */
  lemma AllocatedFails(devs: seq<Device>, m: DeviceMap, weights: Weights, spread: bool, availableIds: seq<string>,
                       requiredIds: seq<string>, size: int, r: Result<seq<string>>)
    requires KubeletRequest(m, availableIds, requiredIds) && InBounds(weights)
    requires 0 < size <= |availableIds| && |requiredIds| <= size
    requires Allocated(devs, m, weights, spread, availableIds, requiredIds, size, r)
    ensures Present(devs, m, availableIds) && (spread || ScoresFit(size)) ==>
      (r.Failure? <==> devs == [] || (Scoring(weights, availableIds, requiredIds, size) && |Registered(m, availableIds)| < size))
    ensures DisjointNodes(devs) && DistinctParents(devs) ==>
      (r.Failure? <==> devs == [] || NoScoredChoice(devs, m, weights, spread, availableIds, requiredIds, size))
    ensures r.Failure? && devs != [] ==> Scoring(weights, availableIds, requiredIds, size)
    ensures devs == [] || (Scoring(weights, availableIds, requiredIds, size) && |Registered(m, availableIds)| < size) ==> r.Failure?
  {
    hide Scored, ById, NoDuplicates, FreeIds, Take, Registered, InBounds, ScoresFit, DisjointNodes, DistinctParents, ScoresTooHigh, Present;
    if devs != [] && |availableIds| != size && |requiredIds| != size && weights != map[] {
      TooFewFail(devs, m, weights, spread, availableIds, requiredIds, size, r);
      if Present(devs, m, availableIds) { ScoredFails(devs, m, weights, spread, availableIds, requiredIds, size, r); }
      if DisjointNodes(devs) && DistinctParents(devs) && |Registered(m, availableIds)| >= size {
        ScoredFailsExactly(devs, m, weights, spread, availableIds, requiredIds, size, r);
      }
    }
  }

  // ---------- the policy ----------

  /** The id table after devs have been entered one by one. */
  function Entered(m: DeviceMap, devs: seq<Device>): DeviceMap {
    if devs == [] then m else Entered(m, devs[..|devs| - 1])[devs[|devs| - 1].id := devs[|devs| - 1]]
  }

  predicate HasId(devs: seq<Device>, id: string) {
    exists i :: 0 <= i < |devs| && devs[i].id == id
  }

  lemma HasIdFront(devs: seq<Device>, id: string)
    requires devs != []
    ensures HasId(devs, id) <==> HasId(devs[..|devs| - 1], id) || devs[|devs| - 1].id == id
  {
    if HasId(devs[..|devs| - 1], id) {
      var i :| 0 <= i < |devs| - 1 && devs[..|devs| - 1][i].id == id;
      assert devs[i].id == id;
    }
  }

  lemma {:induction false} EnteredEntry(m: DeviceMap, devs: seq<Device>, id: string)
    ensures id in Entered(m, devs) <==> id in m || HasId(devs, id)
    ensures HasId(devs, id) ==> Entered(m, devs)[id].id == id && Entered(m, devs)[id] in devs
    ensures id in m && !HasId(devs, id) ==> Entered(m, devs)[id] == m[id]
  {
    if devs != [] {
      HasIdFront(devs, id);
      EnteredEntry(m, devs[..|devs| - 1], id);
    }
  }

  /** Of several devices with one id the last one counts. */
  lemma {:induction false} EnteredLast(m: DeviceMap, devs: seq<Device>, k: nat)
    requires k < |devs| && forall j :: k < j < |devs| ==> devs[j].id != devs[k].id
    ensures devs[k].id in Entered(m, devs) && Entered(m, devs)[devs[k].id] == devs[k]
  {
    if k < |devs| - 1 { EnteredLast(m, devs[..|devs| - 1], k); }
  }

  lemma EnteredById(m: DeviceMap, devs: seq<Device>)
    requires ById(m)
    ensures ById(Entered(m, devs))
    ensures forall id :: HasId(devs, id) ==> id in Entered(m, devs) && Entered(m, devs)[id] in devs
  {
    forall id | id in Entered(m, devs) ensures Entered(m, devs)[id].id == id {
      EnteredEntry(m, devs, id);
    }
    forall id | HasId(devs, id) ensures id in Entered(m, devs) && Entered(m, devs)[id] in devs {
      EnteredEntry(m, devs, id);
    }
    hide Entered, HasId;
  }

  class BestEffortPolicy {
    var devices: seq<Device>
    var devicesMap: DeviceMap
    var devicePartitions: PartitionMap
    var p2pWeights: Weights
    var spread: bool

    /** What initialisation establishes; a policy without devices has it too. */
    ghost predicate Ready()
      reads this
    {
      ById(devicesMap) && Grouped(devices, devicePartitions) && InBounds(p2pWeights)
    }

    constructor NewBestEffortPolicy()
      ensures Ready() && devices == [] && devicesMap == map[] && p2pWeights == map[] && !spread
    {
      devices, devicesMap, devicePartitions, p2pWeights, spread := [], map[], map[], map[], false;
    }

    constructor NewSpreadPolicy()
      ensures Ready() && devices == [] && devicesMap == map[] && p2pWeights == map[] && spread
    {
      devices, devicesMap, devicePartitions, p2pWeights, spread := [], map[], map[], map[], true;
    }

    /** Without devices nothing changes; a repeated call adds to the id table and to the weights of the earlier one. */
    method Init(devs: seq<Device>, links: seq<Link>) returns (ok: bool)
      requires Ready()
      modifies this
      ensures ok <==> devs != []
      ensures spread == old(spread)
      ensures !ok ==> devices == old(devices) && devicesMap == old(devicesMap) && p2pWeights == old(p2pWeights)
      ensures !ok ==> devicePartitions == old(devicePartitions)
      ensures ok ==> devices == devs && devicesMap == Entered(old(devicesMap), devs) && Grouped(devs, devicePartitions)
      ensures ok ==> Complete(devs, AfterLinks(devs, old(p2pWeights), links), p2pWeights)
      ensures ok ==> forall id :: HasId(devs, id) ==> id in devicesMap && devicesMap[id] in devices
      ensures ok ==> forall k :: 0 <= k < |devs| && (forall j :: k < j < |devs| ==> devs[j].id != devs[k].id) ==>
        devs[k].id in devicesMap && devicesMap[devs[k].id] == devs[k]
      ensures Ready()
    {
      hide Complete, AfterLinks, Grouped, InBounds, ById;
      var fetched := FetchAllPairWeights(devs, p2pWeights, links);
      if fetched.Failure? { return false; }
      AfterLinksInBounds(devs, p2pWeights, links);
      CompleteInBounds(devs, AfterLinks(devs, p2pWeights, links), fetched.value);
      ghost var before := devicesMap;
      p2pWeights := fetched.value;
      devices := devs;
      assert devs[..0] == [];
      for idx := 0 to |devs|
        invariant devices == devs && p2pWeights == fetched.value && spread == old(spread)
        invariant devicesMap == Entered(before, devs[..idx])
      {
        assert devs[..idx + 1][..idx] == devs[..idx];
        devicesMap := devicesMap[devs[idx].id := devs[idx]];
      }
      assert devs[..|devs|] == devs;
      devicePartitions := GroupPartitionsByDevId(devs);
      EnteredById(before, devs);
      forall k | 0 <= k < |devs| && (forall j :: k < j < |devs| ==> devs[j].id != devs[k].id)
        ensures devs[k].id in devicesMap && devicesMap[devs[k].id] == devs[k]
      {
        EnteredLast(before, devs, k);
      }
      return true;
    }

    /** The scored branch of Allocate. */
    method AllocateScored(availableIds: seq<string>, requiredIds: seq<string>, size: int) returns (r: Result<seq<string>>)
      requires Ready() && |requiredIds| < size
      ensures Scored(devices, devicesMap, p2pWeights, spread, availableIds, requiredIds, size, r)
    {
      hide Grouped, InBounds, ById, Filtered, Exact, Answer, Registered, NoneBetter, Needed, Picked, FirstBest, NodeIds, IdsOf, Free, BoundedBy, ScoredOnTable;
      var devs := GetDevicesFromIds(devicesMap, availableIds);
      var required := GetDevicesFromIds(devicesMap, requiredIds);
      RegisteredSize(devicesMap, requiredIds);
      var available := new Device[|devs|](i requires 0 <= i < |devs| => devs[i]);
      assert available[..] == devs;
      var allSubsets;
      ghost var groups;
      allSubsets, groups := GetCandidateDeviceSubsets(devices, devicePartitions, available, required, size, p2pWeights);
      if allSubsets.Failure? { return Failure(allSubsets.error); }
      var newSize := size - |required|;
      ghost var sorted, ids := available[..], NodeIds(required);
      var candidate := ChooseCandidate(allSubsets.value, spread);
      BoundOnFamily(IdsOf(groups), p2pWeights, ids, newSize, allSubsets.value, spread, StartScore(spread));
      if candidate.None? {
        r := Failure("no candidate subset found with matching criteria");
        assert ScoredAt(devices, devicesMap, p2pWeights, spread, availableIds, requiredIds, size, r, sorted, groups);
        return;
      }
      var need := CountNeed(candidate.value.ids, required);
      var outset;
      ghost var picks, left;
      outset, picks, left := PickDevices(need, available[..], requiredIds);
      ChosenAnswers(IdsOf(groups), p2pWeights, required, newSize, spread, allSubsets.value, candidate.value,
        Free(sorted, requiredIds), requiredIds, need, picks, left, outset);
      r := Success(outset);
      assert ScoredAt(devices, devicesMap, p2pWeights, spread, availableIds, requiredIds, size, r, sorted, groups);
    }

    method Allocate(availableIds: seq<string>, requiredIds: seq<string>, size: int) returns (r: Result<seq<string>>)
      requires Ready()
      ensures Allocated(devices, devicesMap, p2pWeights, spread, availableIds, requiredIds, size, r)
      ensures size <= 0 || |availableIds| < size || |requiredIds| > size || devices == [] ==> r.Failure?
    {
      hide Scored, Grouped, InBounds, ById, FreeIds, Take, Registered;
      if size <= 0 { return Failure("allocation size can not be negative"); }
      if |availableIds| < size { return Failure("available devices count less than allocation size"); }
      if |requiredIds| > size { return Failure("must_include devices size is more than allocation size"); }
      if |requiredIds| > |availableIds| {
        return Failure("must_include length should be less than or equal to available device size");
      }
      if |devices| == 0 { return Failure("init method must be called before Allocate"); }
      if |availableIds| == size { return Success(availableIds); }
      if |requiredIds| == size { return Success(requiredIds); }
      var containsAll := SetContainsAll(availableIds, requiredIds);
      if !containsAll { return Failure("no candidate subset found with matching criteria"); }
      if |p2pWeights| == 0 {
        var outset := FillUp(availableIds, requiredIds, size);
        return Success(outset);
      }
      r := AllocateScored(availableIds, requiredIds, size);
    }
  }

  lemma CompleteInBounds(devs: seq<Device>, scanned: Weights, out: Weights)
    requires InBounds(scanned) && Complete(devs, scanned, out)
    ensures InBounds(out)
  {
    forall key | key in out ensures MIN_WEIGHT <= out[key] <= MAX_WEIGHT {
      assert EntryOk(devs, scanned, out, NodePair(devs, key), key);
    }
  }
}
