/** GetPreferredAllocation: the policy's answer, or kubelet's own ids where the policy has none. */
module Preferred {
  import opened BestEffort
  import opened RegisteredDevices
  import opened Selection
  import opened Sorting
  import opened Wrappers

  datatype ContainerRequest = ContainerRequest(availableIds: seq<string>, mustIncludeIds: seq<string>, size: int)

  /** The first occurrence of every id. */
  function Firsts(ids: seq<string>): seq<string> {
    if ids == [] then []
    else
      var front := Firsts(ids[..|ids| - 1]);
      if ids[|ids| - 1] in front then front else front + [ids[|ids| - 1]]
  }

  lemma {:induction false} FirstsPrefix(ids: seq<string>, i: nat)
    requires i <= |ids|
    ensures Firsts(ids[..i]) <= Firsts(ids)
  {
    if i < |ids| {
      FirstsPrefix(ids[..|ids| - 1], i);
      assert ids[..|ids| - 1][..i] == ids[..i];
    } else {
      assert ids[..i] == ids;
    }
  }

  /** The first size distinct ids, must-include ones first. None when size is negative: Go's make panics on such a capacity. */
  method EchoPreferred(available: seq<string>, must: seq<string>, size: int) returns (r: Option<seq<string>>)
    ensures r.None? <==> size < 0
    ensures r.Some? ==> r.value == Take(Firsts(must + available), size)
  {
    if size < 0 { return None; }
    var out: seq<string> := [];
    var seen: set<string> := {};
    var all := must + available;
    assert all[..0] == [];
    for i := 0 to |all|
      invariant out == Firsts(all[..i]) && |out| <= size
      invariant forall id :: id in seen <==> id in out
    {
      assert all[..i + 1][..i] == all[..i];
      if |out| == size {
        FirstsPrefix(all, i);
        return Some(out);
      }
      if all[i] !in seen {
        seen := seen + {all[i]};
        out := out + [all[i]];
      }
    }
    assert all[..|all|] == all;
    return Some(out);
  }

  lemma {:induction false} FirstsMembers(ids: seq<string>)
    ensures forall id :: id in Firsts(ids) <==> id in ids
    ensures NoDuplicates(Firsts(ids))
  {
    if ids != [] {
      var front, last := ids[..|ids| - 1], ids[|ids| - 1];
      FirstsMembers(front);
      assert ids == front + [last];
    }
  }

  lemma {:induction false} FirstsOfDistinct(ids: seq<string>)
    requires NoDuplicates(ids)
    ensures Firsts(ids) == ids
  {
    if ids != [] {
      var front, last := ids[..|ids| - 1], ids[|ids| - 1];
      FirstsOfDistinct(front);
      assert ids == front + [last];
    }
  }

  lemma {:induction false} FirstsAreFree(available: seq<string>, must: seq<string>)
    requires NoDuplicates(available) && NoDuplicates(must)
    ensures Firsts(must + available) == must + FreeIds(available, must)
  {
    hide NoDuplicates;
    if available == [] {
      FirstsOfDistinct(must);
      assert must + available == must;
    } else {
      var front, last := available[..|available| - 1], available[|available| - 1];
      DistinctFront(available);
      FirstsAreFree(front, must);
      FreeIdsMembers(front, must);
      assert (must + available)[..|must + available| - 1] == must + front;
    }
  }

  lemma DistinctFront(ids: seq<string>)
    requires NoDuplicates(ids) && ids != []
    ensures NoDuplicates(ids[..|ids| - 1]) && ids[|ids| - 1] !in ids[..|ids| - 1]
  {
  }

  /** On lists without repetition the echo answers what the policy would fill up without weights. */
  lemma EchoIsFillUp(available: seq<string>, must: seq<string>, size: int)
    requires NoDuplicates(available) && NoDuplicates(must) && |must| <= size
    ensures Take(Firsts(must + available), size) == must + Take(FreeIds(available, must), size - |must|)
  {
    hide NoDuplicates, Firsts, FreeIds;
    FirstsAreFree(available, must);
  }

  lemma PrefixWellFormed(firsts: seq<string>, available: seq<string>, must: seq<string>, size: int)
    requires NoDuplicates(firsts) && AllIn(firsts, available) && must <= firsts && |must| <= size <= |firsts|
    ensures WellFormed(available, must, size, firsts[..size])
  {
    var out := firsts[..size];
    forall id | id in must ensures id in out {
      var k :| 0 <= k < |must| && must[k] == id;
      assert out[k] == firsts[k] == must[k];
    }
    assert forall id :: id in out ==> id in firsts;
  }

  /** Whatever the policy could not do, the echo answers a well-formed request with size ids. */
  lemma EchoWellFormed(available: seq<string>, must: seq<string>, size: int)
    requires NoDuplicates(available) && NoDuplicates(must) && AllIn(must, available)
    requires |must| <= size <= |available|
    ensures WellFormed(available, must, size, Take(Firsts(must + available), size))
  {
    hide Firsts, NoDuplicates, WellFormed;
    var all := must + available;
    assert all[..|must|] == must;
    FirstsPrefix(all, |must|);
    FirstsOfDistinct(must);
    FirstsMembers(all);
    EnoughFirsts(all, available);
    PrefixWellFormed(Firsts(all), available, must, size);
  }

  /** A list has at least as many different ids as a duplicate-free list of its ids. */
  lemma EnoughFirsts(all: seq<string>, ids: seq<string>)
    requires NoDuplicates(ids) && forall id :: id in ids ==> id in all
    ensures |Firsts(all)| >= |ids|
  {
    FirstsMembers(all);
    hide Firsts, NoDuplicates;
    forall id ensures multiset(ids)[id] <= multiset(Firsts(all))[id] {
      NoDuplicatesCount(ids, id);
      NoDuplicatesCount(Firsts(all), id);
    }
    assert multiset(ids) <= multiset(Firsts(all));
    SubLength(ids, Firsts(all));
  }

  lemma SubLength(a: seq<string>, b: seq<string>)
    requires multiset(a) <= multiset(b)
    ensures |a| <= |b|
  {
    var rest := multiset(b) - multiset(a);
    assert multiset(b) == multiset(a) + rest;
    assert |multiset(b)| == |b| && |multiset(a)| == |a|;
  }

  /** One answer: the policy's, or the echo. */
  ghost predicate Answered(policy: BestEffortPolicy, req: ContainerRequest, ids: seq<string>)
    reads policy
  {
    exists r :: Allocated(policy.devices, policy.devicesMap, policy.p2pWeights, policy.spread,
        req.availableIds, req.mustIncludeIds, req.size, r)
      && ids == if r.Success? then r.value else Take(Firsts(req.mustIncludeIds + req.availableIds), req.size)
  }

  /** None when a request with a negative size ends the call. */
  method GetPreferredAllocation(policy: BestEffortPolicy, requests: seq<ContainerRequest>) returns (r: Option<seq<seq<string>>>)
    requires policy.Ready()
    ensures r.None? <==> exists k :: 0 <= k < |requests| && requests[k].size < 0
    ensures r.Some? ==> |r.value| == |requests| && forall k :: 0 <= k < |requests| ==> Answered(policy, requests[k], r.value[k])
  {
    hide Allocated, Firsts, Take;
    var responses: seq<seq<string>> := [];
    for k := 0 to |requests|
      invariant |responses| == k && forall j :: 0 <= j < k ==> Answered(policy, requests[j], responses[j])
      invariant forall j :: 0 <= j < k ==> requests[j].size >= 0
    {
      var req := requests[k];
      var answer := policy.Allocate(req.availableIds, req.mustIncludeIds, req.size);
      AnsweredSize(policy, req, answer);
      var ids;
      if answer.Failure? {
        var echo := EchoPreferred(req.availableIds, req.mustIncludeIds, req.size);
        if echo.None? { return None; }
        ids := echo.value;
      } else {
        ids := answer.value;
      }
      assert Answered(policy, req, ids);
      responses := responses + [ids];
    }
    return Some(responses);
  }

  /** The policy refuses a negative size. */
  lemma AnsweredSize(policy: BestEffortPolicy, req: ContainerRequest, answer: Result<seq<string>>)
    requires Allocated(policy.devices, policy.devicesMap, policy.p2pWeights, policy.spread,
      req.availableIds, req.mustIncludeIds, req.size, answer)
    ensures req.size < 0 ==> answer.Failure?
  {
  }

  /**
   * Every well-formed request is answered with size distinct available ids and every must-include id, unless the policy
   * scores a choice around a must-include id that is not registered.
   */
  lemma PreferredWellFormed(policy: BestEffortPolicy, req: ContainerRequest, ids: seq<string>)
    requires policy.Ready() && Answered(policy, req, ids)
    requires KubeletRequest(policy.devicesMap, req.availableIds, req.mustIncludeIds)
    requires 0 < req.size <= |req.availableIds| && |req.mustIncludeIds| <= req.size
    ensures (forall id :: id in req.mustIncludeIds ==> id in policy.devicesMap) ==>
      WellFormed(req.availableIds, req.mustIncludeIds, req.size, ids)
    ensures NoDuplicates(ids) && AllIn(ids, req.availableIds) && AllIn(req.mustIncludeIds, ids) && |ids| >= req.size
  {
    hide Allocated, Firsts, Take, ById, NoDuplicates;
    var r :| Allocated(policy.devices, policy.devicesMap, policy.p2pWeights, policy.spread,
        req.availableIds, req.mustIncludeIds, req.size, r)
      && ids == if r.Success? then r.value else Take(Firsts(req.mustIncludeIds + req.availableIds), req.size);
    if r.Success? {
      AllocatedWellFormed(policy.devices, policy.devicesMap, policy.p2pWeights, policy.spread,
        req.availableIds, req.mustIncludeIds, req.size, r);
    } else {
      EchoWellFormed(req.availableIds, req.mustIncludeIds, req.size);
    }
  }
}
