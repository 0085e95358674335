/** Which Pod an Allocate call is for: the owner of the node lock, or a Pod the scheduler has marked as allocating. */
module PendingPod {
  import opened CommitProtocol
  import opened NodeLock
  import opened Wrappers

  /** A listed Pod: whether its phase is pending, and its bind-time, bind-phase and assigned-node annotations. */
  datatype PodInfo = PodInfo(name: PodName, pending: bool, hasBindTime: bool, allocating: bool, onNode: bool)

  datatype Fetch = Found | NotFound | Unreachable

  /** What one call reads from the API server; the lock value is None when the node carries none. */
  datatype Reads = Reads(nodeRead: bool, lock: Option<string>, fetch: PodName -> Fetch, listRead: bool, listing: seq<PodInfo>)

  predicate Named(p: PodName) {
    p.namespace != "" && p.name != ""
  }

  /** The lock is readable and names p. */
  predicate LockNames(timeOk: string -> bool, view: Reads, p: PodName) {
    view.nodeRead && view.lock.Some? && ParseNodeLock(timeOk, view.lock.value) == Some(p) && Named(p)
  }

  /** Reading the lock or its owner goes wrong. */
  predicate OwnerUnreadable(timeOk: string -> bool, view: Reads) {
    !view.nodeRead
    || (view.lock.Some? &&
         var owner := ParseNodeLock(timeOk, view.lock.value);
         owner.None? || (Named(owner.value) && view.fetch(owner.value).Unreachable?))
  }

  method GetAllocatePodByNode(timeOk: string -> bool, view: Reads) returns (r: Result<Option<PodName>>)
    ensures r.Failure? <==> OwnerUnreadable(timeOk, view)
    ensures forall p :: r == Success(Some(p)) <==> LockNames(timeOk, view, p) && view.fetch(p).Found?
    ensures view.nodeRead && view.lock.Some? && ',' !in view.lock.value ==>
      (r == Success(None) <==> timeOk(view.lock.value)) && (r.Failure? <==> !timeOk(view.lock.value))
  {
    if !view.nodeRead { return Failure("get node"); }
    if view.lock.Some? {
      var owner := ParseNodeLock(timeOk, view.lock.value);
      if owner.None? { return Failure("parse node lock"); }
      if owner.value.namespace == "" || owner.value.name == "" { return Success(None); }
      match view.fetch(owner.value)
      case NotFound => return Success(None);
      case Unreachable => return Failure("get pod");
      case Found => return Success(Some(owner.value));
    }
    return Success(None);
  }

  predicate Candidate(p: PodInfo) {
    p.pending && p.hasBindTime && p.allocating && p.onNode
  }

  ghost predicate FirstCandidate(listing: seq<PodInfo>, p: PodName) {
    exists k :: 0 <= k < |listing| && listing[k].name == p && Candidate(listing[k]) && forall j :: 0 <= j < k ==> !Candidate(listing[j])
  }

  /** The lock names no Pod that exists. */
  ghost predicate NoLiveOwner(timeOk: string -> bool, view: Reads) {
    forall p :: LockNames(timeOk, view, p) ==> view.fetch(p).NotFound?
  }

  /** The lock owner if there is one; only without one the first marked Pod of the list; None when there is neither. */
  method GetPendingPod(timeOk: string -> bool, view: Reads) returns (r: Result<Option<PodName>>)
    ensures r.Failure? <==> OwnerUnreadable(timeOk, view) || (NoLiveOwner(timeOk, view) && !view.listRead)
    ensures r.Success? && r.value.Some? ==>
      || (LockNames(timeOk, view, r.value.value) && view.fetch(r.value.value).Found?)
      || (NoLiveOwner(timeOk, view) && FirstCandidate(view.listing, r.value.value))
    ensures r.Success? && r.value.Some? && NoLiveOwner(timeOk, view) ==>
      PodInfo(r.value.value, true, true, true, true) in view.listing
    ensures r.Success? && r.value.None? ==>
      NoLiveOwner(timeOk, view) && forall k :: 0 <= k < |view.listing| ==> !Candidate(view.listing[k])
  {
    hide ParseNodeLock;
    var owner := GetAllocatePodByNode(timeOk, view);
    if owner.Failure? || owner.value.Some? { return owner; }
    assert NoLiveOwner(timeOk, view);
    if !view.listRead { return Failure("list pods"); }
    for k := 0 to |view.listing|
      invariant forall j :: 0 <= j < k ==> !Candidate(view.listing[j])
    {
      var p := view.listing[k];
      if !p.pending { continue; }
      if !p.hasBindTime { continue; }
      if !p.allocating { continue; }
      if p.onNode { return Success(Some(p.name)); }
    }
    return Success(None);
  }

  predicate ShowsPod(info: PodInfo, s: State) {
    info.name in s.pods && (info.allocating ==> s.pods[info.name].phase.Allocating?)
  }

  /** The view shows the protocol's state. */
  ghost predicate Observes(timeOk: string -> bool, view: Reads, s: State) {
    && view.nodeRead && (view.lock.None? <==> s.lock.None?)
    && (view.lock.Some? ==> ParseNodeLock(timeOk, view.lock.value) == s.lock && Named(s.lock.value))
    && (forall p :: view.fetch(p).Found? <==> p in s.pods)
    && (forall k :: 0 <= k < |view.listing| ==> ShowsPod(view.listing[k], s))
  }

  /** The Pod a call starts for is one the protocol lets a call start for. */
  lemma PendingIsProtocol(timeOk: string -> bool, view: Reads, s: State, p: PodName)
    requires Observes(timeOk, view, s)
    requires (LockNames(timeOk, view, p) && view.fetch(p).Found?) || (NoLiveOwner(timeOk, view) && FirstCandidate(view.listing, p))
    ensures Pending(s, p)
  {
    hide ParseNodeLock;
    if NoLiveOwner(timeOk, view) && FirstCandidate(view.listing, p) {
      var k :| 0 <= k < |view.listing| && view.listing[k].name == p && Candidate(view.listing[k]);
      if s.lock.Some? { assert LockNames(timeOk, view, s.lock.value); }
    }
  }
}
