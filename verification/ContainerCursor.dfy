/** The cursor over a Pod's containers: which slot Allocate serves next, and when the node lock is released. */
module ContainerCursor {
  import opened Arith
  import opened DeviceAnnotation
  import opened Text
  import opened Wrappers

  /** The containers of a Pod; the annotation lists init containers first. */
  datatype PodSpec = PodSpec(initContainers: seq<string>, containers: seq<string>)

  /** The non-empty slots from index i on, ascending. */
  function FullSlots(slots: seq<Slot>, i: nat): (full: seq<nat>)
    ensures forall a :: 0 <= a < |full| ==> i <= full[a] < |slots|
    decreases |slots| - i
  {
    if i >= |slots| then [] else
    var rest := FullSlots(slots, i + 1);
    if slots[i] == [] then rest else [i] + rest
  }

  predicate HasContainer(spec: PodSpec, slot: nat) {
    slot < |spec.initContainers| + |spec.containers|
  }

  function ContainerOf(spec: PodSpec, slot: nat): string
    requires HasContainer(spec, slot)
  {
    if slot < |spec.initContainers| then spec.initContainers[slot] else spec.containers[slot - |spec.initContainers|]
  }

  datatype Request = Request(slot: nat, container: string, devices: Slot)

  /** The request GetNextDeviceRequest finds: the first non-empty slot, if the Pod has its container. */
  function NextRequest(spec: PodSpec, annotation: Option<string>): Option<Request> {
    if annotation.None? || DecodePod(annotation.value).None? then None else
    var slots := DecodePod(annotation.value).value;
    var full := FullSlots(slots, 0);
    if full == [] || !HasContainer(spec, full[0]) then None
    else Some(Request(full[0], ContainerOf(spec, full[0]), slots[full[0]]))
  }

  function EraseFirst(slots: seq<Slot>): (after: seq<Slot>)
    ensures |after| == |slots|
  {
    var full := FullSlots(slots, 0);
    if full == [] then slots else slots[full[0] := []]
  }

  lemma {:induction false} FullSlotsExact(slots: seq<Slot>, i: nat)
    ensures var full := FullSlots(slots, i);
      Increasing(full) && forall k: nat :: k in full <==> i <= k < |slots| && slots[k] != []
    decreases |slots| - i
  {
    hide Increasing;
    if i < |slots| {
      FullSlotsExact(slots, i + 1);
      if slots[i] != [] { IncreasingPrepend(i, FullSlots(slots, i + 1)); }
    } else {
      NothingIncreases();
    }
  }

  /** Slot k is the first that is not empty. */
  predicate FirstFull(slots: seq<Slot>, k: nat) {
    k < |slots| && slots[k] != [] && forall j :: 0 <= j < k ==> slots[j] == []
  }

  /** The first non-empty slot with its entry of the init containers followed by the app containers, if there is one. */
  method GetNextDeviceRequest(spec: PodSpec, annotation: Option<string>) returns (r: Result<Request>)
    ensures r.Failure? <==> NextRequest(spec, annotation).None?
    ensures r.Success? ==> NextRequest(spec, annotation) == Some(r.value)
    ensures r.Success? ==> annotation.Some? && DecodePod(annotation.value).Some?
    ensures annotation.Some? && DecodePod(annotation.value).Some? ==>
      (r.Success? <==>
        exists k: nat :: k < |spec.initContainers + spec.containers| && FirstFull(DecodePod(annotation.value).value, k))
    ensures r.Success? ==>
      && FirstFull(DecodePod(annotation.value).value, r.value.slot)
      && r.value.slot < |spec.initContainers + spec.containers|
      && r.value.container == (spec.initContainers + spec.containers)[r.value.slot]
      && r.value.devices == DecodePod(annotation.value).value[r.value.slot]
  {
    hide DecodePod;
    var decoded := DecodePodDevices(annotation);
    if decoded.Failure? { return Failure(decoded.error); }
    if decoded.value.None? { return Failure("device request not found"); }
    var pd := decoded.value.value;
    for ctridx := 0 to |pd|
      invariant FullSlots(pd, 0) == FullSlots(pd, ctridx)
      invariant forall j :: 0 <= j < ctridx ==> pd[j] == []
    {
      if |pd[ctridx]| == 0 { continue; }
      assert FirstFull(pd, ctridx);
      assert FullSlots(pd, 0)[0] == ctridx;
      if ctridx < |spec.initContainers| {
        return Success(Request(ctridx, spec.initContainers[ctridx], pd[ctridx]));
      }
      if ctridx - |spec.initContainers| >= |spec.containers| {
        return Failure("device request for a container the pod does not have");
      }
      return Success(Request(ctridx, spec.containers[ctridx - |spec.initContainers|], pd[ctridx]));
    }
    return Failure("device request not found");
  }

  /** The to-allocate annotation of a Pod as the API server has it. */
  class ToAllocate {
    var annotation: Option<string>

    constructor (annotation: Option<string>)
      ensures this.annotation == annotation
    {
      this.annotation := annotation;
    }

    /** A patch that is not applied reports an error; one that is applied may report one too. */
    method Patch(value: string, applied: bool, reportsError: bool) returns (ok: bool)
      modifies this
      ensures annotation == if applied then Some(value) else old(annotation)
      ensures ok == !reportsError
    {
      if applied { annotation := Some(value); }
      ok := !reportsError;
    }
  }

  /** Reads the caller's copy of the annotation and patches the stored one; succeeds if it can be read and the patch does. */
  method EraseNextDeviceTypeFromAnnotation(copy: Option<string>, pod: ToAllocate, applied: bool, reportsError: bool) returns (ok: bool)
    requires applied || reportsError
    modifies pod
    ensures var readable := copy.Some? && DecodePod(copy.value).Some?;
      && (ok <==> readable && !reportsError)
      && (pod.annotation == if readable && applied then Some(PodText(EraseFirst(DecodePod(copy.value).value))) else old(pod.annotation))
  {
    hide DecodePod, PodText, EraseFirst;
    var text := ErasedText(copy);
    if text.Failure? { return false; }
    ok := pod.Patch(text.value, applied, reportsError);
  }

  /** What is erased is the first non-empty slot, or none at the end. */
  lemma FirstErased(slots: seq<Slot>) returns (k: nat)
    ensures k <= |slots| && forall j :: 0 <= j < k ==> slots[j] == []
    ensures k < |slots| ==> slots[k] != []
    ensures EraseFirst(slots) == if k < |slots| then slots[k := []] else slots
  {
    var full := FullSlots(slots, 0);
    FullSlotsExact(slots, 0);
    hide FullSlots;
    k := if full == [] then |slots| else full[0];
    forall x | x in full ensures k <= x {}
    forall j | 0 <= j < k ensures slots[j] == [] {
      assert slots[j] != [] ==> j in full;
    }
    if full != [] { assert full[0] in full; }
  }

  /** The annotation value to patch in. */
  method ErasedText(annotation: Option<string>) returns (r: Result<string>)
    ensures r.Failure? <==> annotation.None? || DecodePod(annotation.value).None?
    ensures r.Success? ==> r.value == PodText(EraseFirst(DecodePod(annotation.value).value))
  {
    hide DecodePod, PodText;
    var decoded := DecodePodDevices(annotation);
    if decoded.Failure? { return Failure(decoded.error); }
    if decoded.value.None? { return Failure("erase device annotation not found"); }
    var pd := decoded.value.value;
    ghost var k := FirstErased(pd);
    ghost var goal := EraseFirst(pd);
    hide FullSlots, EraseFirst;
    var res: seq<Slot> := [];
    var found := false;
    for i := 0 to |pd|
      invariant found <==> k < i
      invariant res == goal[..i]
    {
      var val := pd[i];
      if found {
        res := res + [val];
      } else if |val| > 0 {
        found := true;
        res := res + [[]];
      } else {
        res := res + [val];
      }
    }
    assert res == goal;
    var text := EncodePodSingleDevice(res);
    return Success(text);
  }

  /** PodAllocationTrySuccess: nothing is left to allocate, so the phase is set to success and the lock released. */
  predicate NothingLeft(annotation: Option<string>) {
    annotation.None? || (DecodePod(annotation.value).Some? && FullSlots(DecodePod(annotation.value).value, 0) == [])
  }

  /** refreshed is the annotation as read back, None when the Pod cannot be read. */
  method PodAllocationTrySuccess(refreshed: Option<Option<string>>) returns (release: bool)
    ensures release <==> refreshed.Some? && NothingLeft(refreshed.value)
    ensures release ==> refreshed.Some? && (refreshed.value.Some? ==> DecodePod(refreshed.value.value).Some?)
    ensures refreshed.Some? && (refreshed.value.Some? ==> DecodePod(refreshed.value.value).Some?) ==>
      (release <==> refreshed.value.None? || forall slot :: slot in DecodePod(refreshed.value.value).value ==> slot == [])
  {
    hide DecodePod;
    if refreshed.None? { return false; }
    var decoded := DecodePodDevices(refreshed.value);
    if decoded.Failure? { return false; }
    if decoded.value.None? { return true; }
    var pd := decoded.value.value;
    for i := 0 to |pd|
      invariant FullSlots(pd, 0) == FullSlots(pd, i)
      invariant forall j :: 0 <= j < i ==> pd[j] == []
    {
      if |pd[i]| > 0 {
        assert pd[i] in pd;
        return false;
      }
    }
    return true;
  }

  // ---------- whole runs ----------

  /** What a Pod's Allocate calls leave behind: the stored annotation, the requests served, how often the lock was released. */
  datatype CursorState = CursorState(annotation: string, served: seq<Request>, releases: nat)

  /** One Allocate call that takes its request from the annotation: get-next, erase-next, then the success check. */
  function Serve(spec: PodSpec, st: CursorState): Option<CursorState> {
    var next := NextRequest(spec, Some(st.annotation));
    if next.None? then None else
    var erased := PodText(EraseFirst(DecodePod(st.annotation).value));
    Some(CursorState(erased, st.served + [next.value], st.releases + if NothingLeft(Some(erased)) then 1 else 0))
  }

  function Run(spec: PodSpec, annotation: string, calls: nat): Option<CursorState> {
    if calls == 0 then Some(CursorState(annotation, [], 0)) else
    var st := Run(spec, annotation, calls - 1);
    if st.None? then None else Serve(spec, st.value)
  }

  /** The slots with their first n non-empty entries emptied. */
  function Erased(slots: seq<Slot>, n: nat): seq<Slot> {
    if n == 0 then slots else EraseFirst(Erased(slots, n - 1))
  }

  lemma {:induction false} FullFromAfterErase(slots: seq<Slot>, erased: seq<Slot>, i: nat, k: nat)
    requires |slots| == |erased| && k < i
    requires forall j :: k < j < |slots| ==> slots[j] == erased[j]
    ensures FullSlots(slots, i) == FullSlots(erased, i)
    decreases |slots| - i
  {
    if i < |slots| { FullFromAfterErase(slots, erased, i + 1, k); }
  }

  lemma {:induction false} FullTail(slots: seq<Slot>, i: nat)
    requires FullSlots(slots, i) != []
    ensures var full := FullSlots(slots, i);
      full[0] < |slots| && FullSlots(slots[full[0] := []], i) == full[1..]
    decreases |slots| - i
  {
    FullSlotsExact(slots, i);
    if slots[i] == [] {
      FullTail(slots, i + 1);
    } else {
      FullFromAfterErase(slots, slots[i := []], i + 1, i);
    }
  }

  /** Erasing keeps the number of slots and every other slot, and drops exactly the first non-empty one. */
  lemma EraseFirstKeepsRest(slots: seq<Slot>)
    ensures var full, after := FullSlots(slots, 0), EraseFirst(slots);
      && |after| == |slots|
      && (full != [] ==> FullSlots(after, 0) == full[1..])
      && (forall j :: 0 <= j < |slots| && (full == [] || j != full[0]) ==> after[j] == slots[j])
  {
    FullSlotsExact(slots, 0);
    if FullSlots(slots, 0) != [] { FullTail(slots, 0); }
  }

  lemma {:induction false} ErasedShape(slots: seq<Slot>, n: nat)
    requires n <= |FullSlots(slots, 0)|
    ensures var full := FullSlots(slots, 0);
      && |Erased(slots, n)| == |slots|
      && FullSlots(Erased(slots, n), 0) == full[n..]
      && (forall j :: 0 <= j < |slots| && j !in full[..n] ==> Erased(slots, n)[j] == slots[j])
  {
    hide FullSlots, EraseFirst;
    if n > 0 {
      ErasedShape(slots, n - 1);
      EraseFirstKeepsRest(Erased(slots, n - 1));
      var full := FullSlots(slots, 0);
      assert full[n - 1..][0] == full[n - 1] && full[n - 1..][1..] == full[n..];
      assert full[..n] == full[..n - 1] + [full[n - 1]];
    }
  }

  lemma {:induction false} ErasedEncodable(slots: seq<Slot>, n: nat)
    requires slots != [] && EncodableSlots(slots)
    ensures Erased(slots, n) != [] && EncodableSlots(Erased(slots, n))
  {
    if n > 0 {
      ErasedEncodable(slots, n - 1);
      EraseFirstKeepsRest(Erased(slots, n - 1));
    }
  }

  /** Every non-empty slot belongs to a container the Pod has. */
  predicate Servable(spec: PodSpec, slots: seq<Slot>) {
    forall j :: 0 <= j < |FullSlots(slots, 0)| ==> HasContainer(spec, FullSlots(slots, 0)[j])
  }

  /**
   * The first n requests a Pod is owed: its non-empty slots in order, each for its entry of the init containers followed
   * by the app containers, with the devices the annotation gave.
   */
  function Owed(spec: PodSpec, slots: seq<Slot>, n: nat): seq<Request>
    requires Servable(spec, slots) && n <= |FullSlots(slots, 0)|
  {
    seq(n, j requires 0 <= j < n =>
      Request(FullSlots(slots, 0)[j], (spec.initContainers + spec.containers)[FullSlots(slots, 0)[j]], slots[FullSlots(slots, 0)[j]]))
  }

  /**
   * What holds after n calls for a Pod owed k requests: it was served the first n in order, the annotation denotes
   * the slots with those n emptied, and the lock was released once if that was the k-th call and not at all before.
   */
  predicate AfterCalls(spec: PodSpec, slots: seq<Slot>, n: nat, st: CursorState) {
    && Servable(spec, slots) && n <= |FullSlots(slots, 0)|
    && st.served == Owed(spec, slots, n)
    && DecodePod(st.annotation) == Some(Erased(slots, n))
    && st.releases == (if 0 < n == |FullSlots(slots, 0)| then 1 else 0)
  }

  /**
   * A Pod whose annotation has k non-empty slots, each with a container, is served each of them exactly once, in
   * order and with the devices the annotation gave; the lock is released by the k-th call and by no earlier one;
   * and there is no further request.
   */
  lemma {:induction false} ServedOnceInOrder(spec: PodSpec, annotation: string, slots: seq<Slot>, n: nat)
    requires DecodePod(annotation) == Some(slots) && Servable(spec, slots)
    requires n <= |FullSlots(slots, 0)|
    ensures Run(spec, annotation, n).Some?
    ensures AfterCalls(spec, slots, n, Run(spec, annotation, n).value)
    ensures |Run(spec, annotation, n).value.served| == n
    ensures forall k :: 0 <= k < n ==> var slot := FullSlots(slots, 0)[k];
      Run(spec, annotation, n).value.served[k] == Request(slot, (spec.initContainers + spec.containers)[slot], slots[slot])
    ensures n == |FullSlots(slots, 0)| ==> Run(spec, annotation, n + 1).None?
  {
    hide DecodePod, Serve, FullSlots, AfterCalls;
    if n == 0 {
      NoCallYet(spec, annotation, slots);
    } else {
      ServedOnceInOrder(spec, annotation, slots, n - 1);
      DecodedIsEncodable(annotation);
      NextCall(spec, slots, n, Run(spec, annotation, n - 1).value);
    }
    ServedEach(spec, slots, n, Run(spec, annotation, n).value);
    if n == |FullSlots(slots, 0)| {
      NothingToServe(spec, slots, Run(spec, annotation, n).value);
    }
  }

  lemma ServedEach(spec: PodSpec, slots: seq<Slot>, n: nat, st: CursorState)
    requires AfterCalls(spec, slots, n, st)
    ensures |st.served| == n <= |FullSlots(slots, 0)|
    ensures forall k :: 0 <= k < n ==> var slot := FullSlots(slots, 0)[k];
      && slot < |spec.initContainers + spec.containers|
      && st.served[k] == Request(slot, (spec.initContainers + spec.containers)[slot], slots[slot])
  {
    hide DecodePod, FullSlots;
  }

  lemma NoCallYet(spec: PodSpec, annotation: string, slots: seq<Slot>)
    requires DecodePod(annotation) == Some(slots) && Servable(spec, slots)
    ensures AfterCalls(spec, slots, 0, CursorState(annotation, [], 0))
  {
    hide DecodePod, FullSlots;
    OwedNothing(spec, slots);
  }

  lemma NextCall(spec: PodSpec, slots: seq<Slot>, n: nat, st: CursorState)
    requires n > 0 && AfterCalls(spec, slots, n - 1, st)
    requires n <= |FullSlots(slots, 0)| && slots != [] && EncodableSlots(slots)
    ensures Serve(spec, st).Some? && AfterCalls(spec, slots, n, Serve(spec, st).value)
  {
    hide DecodePod, Serve, FullSlots, EraseFirst, Owed, EncodableSlots;
    ErasedEncodable(slots, n - 1);
    NextIsNth(slots, n - 1);
    ErasedCount(slots, n);
    ServeStep(spec, st, Erased(slots, n - 1));
    OwedStep(spec, slots, n);
  }

  lemma ErasedCount(slots: seq<Slot>, n: nat)
    requires n <= |FullSlots(slots, 0)|
    ensures FullSlots(Erased(slots, n), 0) == [] <==> n == |FullSlots(slots, 0)|
  {
    hide FullSlots;
    ErasedShape(slots, n);
  }

  lemma OwedNothing(spec: PodSpec, slots: seq<Slot>)
    requires Servable(spec, slots)
    ensures Owed(spec, slots, 0) == []
  {
  }

  lemma OwedStep(spec: PodSpec, slots: seq<Slot>, n: nat)
    requires Servable(spec, slots) && 0 < n <= |FullSlots(slots, 0)|
    ensures var k := FullSlots(slots, 0)[n - 1];
      Owed(spec, slots, n) == Owed(spec, slots, n - 1) + [Request(k, (spec.initContainers + spec.containers)[k], slots[k])]
  {
    hide FullSlots;
  }

  /** After n erasures the next request is the n-th non-empty slot, still with its own devices. */
  lemma NextIsNth(slots: seq<Slot>, n: nat)
    requires n < |FullSlots(slots, 0)|
    ensures var full, now := FullSlots(slots, 0), Erased(slots, n);
      && FullSlots(now, 0) != [] && FullSlots(now, 0)[0] == full[n]
      && now[FullSlots(now, 0)[0]] == slots[full[n]]
  {
    hide FullSlots;
    FullSlotsExact(slots, 0);
    ErasedShape(slots, n);
    var full := FullSlots(slots, 0);
    assert full[n..][0] == full[n] && full[n] !in full[..n];
  }

  /** One call on an annotation that denotes slots. */
  lemma ServeStep(spec: PodSpec, st: CursorState, slots: seq<Slot>)
    requires DecodePod(st.annotation) == Some(slots) && EncodableSlots(slots)
    requires FullSlots(slots, 0) != [] && HasContainer(spec, FullSlots(slots, 0)[0])
    ensures var k, after := FullSlots(slots, 0)[0], EraseFirst(slots);
      && k < |slots|
      && Serve(spec, st).Some?
      && Serve(spec, st).value.served == st.served + [Request(k, (spec.initContainers + spec.containers)[k], slots[k])]
      && DecodePod(Serve(spec, st).value.annotation) == Some(after)
      && Serve(spec, st).value.releases == st.releases + if FullSlots(after, 0) == [] then 1 else 0
  {
    hide DecodePod, PodText;
    FullSlotsExact(slots, 0);
    EraseFirstKeepsRest(slots);
    var k := FullSlots(slots, 0)[0];
    forall i, j | 0 <= i < |slots| && 0 <= j < |EraseFirst(slots)[i]| ensures Encodable(EraseFirst(slots)[i][j]) {}
    EncodedDecodes(EraseFirst(slots));
  }

  lemma NothingToServe(spec: PodSpec, slots: seq<Slot>, st: CursorState)
    requires AfterCalls(spec, slots, |FullSlots(slots, 0)|, st)
    ensures Serve(spec, st).None?
  {
    hide DecodePod;
    ErasedCount(slots, |FullSlots(slots, 0)|);
  }
}
