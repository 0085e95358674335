/** The end of an Allocate call that took CU slices: check the lock, patch the annotation, read back after an error. */
module CommitCall {
  import opened CommitProtocol
  import opened NodeLock
  import opened Occupancy
  import opened Wrappers

  /** What the network does to the three requests; a patch that is not applied reports an error. */
  datatype Weather = Weather(nodeRead: bool, patchApplied: bool, patchError: bool, podRead: bool)

  class ApiServer {
    var nodeLock: Option<string>
    var cuAllocation: map<PodName, CuAnnotation>

    constructor (nodeLock: Option<string>, cuAllocation: map<PodName, CuAnnotation>)
      ensures this.nodeLock == nodeLock && this.cuAllocation == cuAllocation
    {
      this.nodeLock, this.cuAllocation := nodeLock, cuAllocation;
    }

    method PatchPodAnnotations(pod: PodName, list: map<string, string>, w: Weather) returns (ok: bool)
      requires w.patchApplied ==> pod in cuAllocation
      modifies `cuAllocation
      ensures cuAllocation == if w.patchApplied then old(cuAllocation)[pod := Entries(list)] else old(cuAllocation)
      ensures ok == !w.patchError
    {
      if w.patchApplied { cuAllocation := cuAllocation[pod := Entries(list)]; }
      ok := !w.patchError;
    }

    /** None when the Pod cannot be read. */
    method HasPersistedCUAllocation(pod: PodName, list: map<string, string>, w: Weather) returns (r: Option<bool>)
      ensures r.Some? <==> w.podRead && pod in cuAllocation
      ensures r.Some? ==> (r.value <==> cuAllocation[pod] == Entries(list))
    {
      if !w.podRead || pod !in cuAllocation { return None; }
      return Some(cuAllocation[pod] == Entries(list));
    }
  }

  /** The whole effect of a commit by a call whose Pod owns the lock or not. */
  predicate Committed(owns: bool, before: map<PodName, CuAnnotation>, pod: PodName, list: map<string, string>, w: Weather,
                      ok: bool, after: map<PodName, CuAnnotation>)
  {
    && after == (if w.nodeRead && owns && w.patchApplied then before[pod := Entries(list)] else before)
    && (ok <==> w.nodeRead && owns && (!w.patchError || (w.podRead && pod in after && after[pod] == Entries(list))))
  }

  /** Success means the list is stored, whether or not the patch reported an error; otherwise it is the old or the new one. */
  method CommitSlices(api: ApiServer, timeOk: string -> bool, pod: PodName, list: map<string, string>, w: Weather) returns (ok: bool)
    requires w.patchApplied || w.patchError
    requires w.patchApplied ==> pod in api.cuAllocation
    modifies api`cuAllocation
    ensures Committed(ValidateNodeLockOwner(timeOk, api.nodeLock, pod), old(api.cuAllocation), pod, list, w, ok, api.cuAllocation)
    ensures ok ==> pod in api.cuAllocation && api.cuAllocation[pod] == Entries(list)
    ensures ok ==> ValidateNodeLockOwner(timeOk, api.nodeLock, pod)
    ensures w.nodeRead && ValidateNodeLockOwner(timeOk, api.nodeLock, pod) && w.patchApplied && w.podRead ==> ok
    ensures !ok && pod in old(api.cuAllocation) ==> pod in api.cuAllocation
    ensures !ok && pod in old(api.cuAllocation) ==>
      api.cuAllocation[pod] == old(api.cuAllocation)[pod] || api.cuAllocation[pod] == Entries(list)
    ensures forall q :: q != pod ==> (q in api.cuAllocation <==> q in old(api.cuAllocation))
    ensures forall q :: q != pod && q in api.cuAllocation ==> api.cuAllocation[q] == old(api.cuAllocation)[q]
  {
    if !w.nodeRead || !ValidateNodeLockOwner(timeOk, api.nodeLock, pod) { return false; }
    var patched := api.PatchPodAnnotations(pod, list, w);
    if !patched {
      var persisted := api.HasPersistedCUAllocation(pod, list, w);
      if persisted.None? || !persisted.value { return false; }
    }
    return true;
  }

  // ---------- the same three steps in the protocol ----------

  function Annotations(s: State): map<PodName, CuAnnotation> {
    map p | p in s.pods :: s.pods[p].annotation
  }

  predicate CanCommit(s: State, p: PodName, w: Weather) {
    && p in s.calls && s.calls[p].stage.ToPersist?
    && (w.patchApplied || w.patchError) && (w.patchApplied ==> p in s.pods)
  }

  ghost function AfterCheck(hw: Hardware, s: State, p: PodName, w: Weather): State
    requires CanCommit(s, p, w)
  {
    Next(hw, s, if w.nodeRead then CheckLock(p) else Abort(p))
  }

  /** The commit as a run of the protocol in which nobody else acts. */
  ghost function AfterCommit(hw: Hardware, s: State, p: PodName, w: Weather): State
    requires CanCommit(s, p, w)
  {
    var checked := AfterCheck(hw, s, p, w);
    if !checked.calls[p].stage.LockChecked? then checked
    else
      var patched := Next(hw, checked, Patch(p, w.patchApplied, w.patchError));
      if !patched.calls[p].stage.Unconfirmed? then patched
      else Next(hw, patched, ReadBack(p, !w.podRead || p !in patched.pods))
  }

  /** What CommitSlices does is what the protocol's steps do. */
  lemma CommitIsProtocol(hw: Hardware, s: State, p: PodName, w: Weather, ok: bool, after: map<PodName, CuAnnotation>)
    requires CanCommit(s, p, w)
    requires Committed(s.lock == Some(p), Annotations(s), p, s.calls[p].stage.list, w, ok, after)
    ensures Annotations(AfterCommit(hw, s, p, w)) == after
    ensures p in AfterCommit(hw, s, p, w).calls
    ensures ok <==> AfterCommit(hw, s, p, w).calls[p].stage.Succeeded?
    ensures !ok <==> AfterCommit(hw, s, p, w).calls[p].stage.Failing?
  {
  }
}
